/**
 * The connection handshake and the character commands (src/controller/character.mjs).
 *
 * `character(socket, sockets, sql)` reads the caller's `x-real-ip` header and the
 * `hex_token` cookie, looks the token up in the store, and then either rejects the
 * connection (an `error` emit and a disconnect) or copies the user's identity onto
 * the socket and registers it in the shared `sockets` table.  In every case that
 * does not throw it then emits `hello` and attaches the `create-character` and
 * `get-character` listeners.  The store is a parameter: a lookup from token to a
 * row, a missing row, or a failed query.
 */
module Character {
  import opened Wrappers
  import opened JsStrings
  import TaskQueue

  type SocketId = string

  /** The two request headers the handshake reads; either may be absent. */
  datatype Headers = Headers(realIp: Option<string>, cookie: Option<string>)

  /** The `users` row selected by token: `lastip` is NULL when no address was recorded. */
  datatype UserRecord = UserRecord(id: int, username: string, token: string, permissions: int, lastip: Option<string>)

  /** A row of a league table, column name to value. */
  datatype Row = Row(columns: map<string, string>)

  /** `sql.getOne(...)`: the query rejects, finds no row (`null`), or yields its first row. */
  datatype Fetch<R> = QueryFailed | NoRow | Found(row: R)

  /** What the socket is sent: `emit('error', reason)` or `emit('hello', {id, username, perms})`. */
  datatype Message =
    | ErrorMessage(reason: string)
    | Hello(id: Option<int>, username: Option<string>, perms: Option<int>)

  /** Why `character` throws before emitting anything. */
  datatype Fault =
    | NoCookieHeader   // `headers['cookie']` is undefined, so `.split` fails
    | NoTokenCookie    // no cookie starts with `hex_token=`, so `hexToken.split` fails
    | LookupFailed     // the user query rejected

  /** The three ways the handshake turns a connection away. */
  datatype Reason = AuthenticationFailed | IpMismatch | AlreadyLoggedIn

  /** How the handshake ends. */
  datatype Verdict = Aborted(fault: Fault) | Rejected(reason: Reason) | Accepted(user: UserRecord)

  /** The text of the `error` emit for each rejection. */
  function ReasonText(r: Reason): (t: string)
    ensures |t| > 0
  {
    match r
    case AuthenticationFailed => "authentication failed"
    case IpMismatch => "ip address mismatch"
    case AlreadyLoggedIn => "already logged in"
  }

  /** The three rejections are told apart by their text. */
  lemma ReasonTextDistinct(r1: Reason, r2: Reason)
    requires ReasonText(r1) == ReasonText(r2)
    ensures r1 == r2
  {
  }

  const TokenPrefix: string := "hex_token="

  // ---------------------------------------------------------------------------
  // Token extraction

  /** A cookie that starts with `hex_token=` has its first `=` at index 9. */
  lemma TokenCookieSplit(cookie: string)
    requires StartsWith(cookie, TokenPrefix)
    ensures Split(cookie, "=") == [cookie[..9]] + Split(cookie[10..], "=")
  {
    assert cookie[..10] == TokenPrefix;
    assert OccursAt(cookie, "=", 9);
    forall j | 0 <= j < 9 ensures !OccursAt(cookie, "=", j) {
      assert cookie[j] == TokenPrefix[j];
    }
  }

  /** The first piece of a split on `=` is the text up to the first `=`. */
  lemma FirstPieceOnEquals(s: string)
    ensures var p := Split(s, "=")[0];
      && StartsWith(s, p)
      && (forall k :: 0 <= k < |p| ==> p[k] != '=')
      && (|p| == |s| || s[|p|] == '=')
  {
    SplitFirst(s, "=");
    SplitPiecesFree(s, "=");
    var p := Split(s, "=")[0];
    assert Free(p, "=");
    forall k | 0 <= k < |p| ensures p[k] != '=' {
      if p[k] == '=' { assert OccursAt(p, "=", k); }
    }
    match IndexOf(s, "=")
    case None =>
    case Some(i) =>
      assert OccursAt(s, "=", i);
      assert s[i..i + 1] == "=";
  }

  /**
   * `hexToken.split('=')[1]`: the text between the first and the second `=` of
   * the cookie, that is, after `hex_token=` up to the next `=` or the end.
   */
  function TokenOf(cookie: string): (token: string)
    requires StartsWith(cookie, TokenPrefix)
    ensures StartsWith(cookie[|TokenPrefix|..], token)
    ensures forall k :: 0 <= k < |token| ==> token[k] != '='
    ensures |TokenPrefix| + |token| == |cookie| || cookie[|TokenPrefix| + |token|] == '='
  {
    TokenCookieSplit(cookie);
    FirstPieceOnEquals(cookie[10..]);
    Split(cookie, "=")[1]
  }

  /** The cookies of a `Cookie` header: `cookie.split('; ')`. */
  function Cookies(header: string): (cookies: seq<string>)
    ensures |cookies| >= 1
  {
    Split(header, "; ")
  }

  /**
   * Lines 6-7 and the argument of line 10: split the cookie header on `"; "`,
   * take the first cookie that starts with `hex_token=`, and its token.
   */
  function ExtractToken(cookieHeader: Option<string>): (r: Result<string, Fault>)
    ensures cookieHeader.None? ==> r == Err(NoCookieHeader)
    ensures cookieHeader.Some? ==>
      (r.Err? <==> forall i :: 0 <= i < |Cookies(cookieHeader.value)| ==>
                     !StartsWith(Cookies(cookieHeader.value)[i], TokenPrefix))
    ensures cookieHeader.Some? && r.Err? ==> r.error == NoTokenCookie
    ensures cookieHeader.Some? && r.Ok? ==>
      forall i :: FirstStartingWith(Cookies(cookieHeader.value), TokenPrefix, i) ==>
        r.value == TokenOf(Cookies(cookieHeader.value)[i])
  {
    match cookieHeader
    case None => Err(NoCookieHeader)
    case Some(header) =>
      var cookies := Cookies(header);
      match FindStartingWith(cookies, TokenPrefix)
      case None => Err(NoTokenCookie)
      case Some(k) =>
        FirstStartingWithUnique(cookies, TokenPrefix, k);
        Ok(TokenOf(cookies[k]))
  }

  // ---------------------------------------------------------------------------
  // The duplicate-login check

  /** Some registered socket already carries this username (the check the code was meant to make). */
  ghost predicate AnyLoggedIn(names: map<SocketId, string>, username: string) {
    exists k :: k in names && names[k] == username
  }

  /**
   * The value `loggedIn` has after `Object.keys(sockets).filter(...)`: each visit
   * overwrites it, so only the last key counts; `undefined` (`None`) when the
   * table is empty.
   */
  function LastVisited(keys: seq<SocketId>, names: map<SocketId, string>, username: string): (r: Option<bool>)
    requires forall k :: k in keys ==> k in names
    ensures r.None? <==> |keys| == 0
    ensures r == Some(true) ==> exists k :: k in keys && names[k] == username
  {
    if |keys| == 0 then None else Some(names[keys[|keys| - 1]] == username)
  }

  /** Lines 13-16 as written: a loop that overwrites `loggedIn` on every key visited. */
  method LastVisitedMatch(keys: seq<SocketId>, names: map<SocketId, string>, username: string)
    returns (loggedIn: Option<bool>)
    requires forall k :: k in keys ==> k in names
    ensures loggedIn == LastVisited(keys, names, username)
    ensures loggedIn == Some(true) ==> AnyLoggedIn(names, username)
  {
    loggedIn := None;
    var i := 0;
    while i < |keys|
      invariant 0 <= i <= |keys|
      invariant loggedIn == LastVisited(keys[..i], names, username)
    {
      loggedIn := Some(names[keys[i]] == username);
      i := i + 1;
      assert keys[..i][i - 1] == keys[i - 1];
    }
    assert keys[..i] == keys;
  }

  /** The check as written never reports a duplicate that is not there. */
  lemma LastVisitedSound(keys: seq<SocketId>, names: map<SocketId, string>, username: string)
    requires forall k :: k in keys ==> k in names
    requires LastVisited(keys, names, username) == Some(true)
    ensures AnyLoggedIn(names, username)
  {
  }

  /**
   * But it misses every duplicate that is not the last key: with `alice` on the
   * first socket and `bob` on the second, a new `alice` is not "logged in".
   */
  lemma LastVisitedMissesEarlierEntry()
    ensures var names := map["s1" := "alice", "s2" := "bob"];
      && AnyLoggedIn(names, "alice")
      && LastVisited(["s1", "s2"], names, "alice") == Some(false)
  {
    var names := map["s1" := "alice", "s2" := "bob"];
    assert names["s1"] == "alice";
  }

  // ---------------------------------------------------------------------------
  // The decision

  /** `userInfo.lastip === ip`: a NULL address or a missing header never matches. */
  predicate IpMatches(lastip: Option<string>, ip: Option<string>): (r: bool)
    ensures r <==> lastip.Some? && ip.Some? && lastip.value == ip.value
  {
    lastip.Some? && lastip == ip
  }

  /**
   * The outcome of the handshake, given the headers, the `sockets` table when the
   * user query resolves (keys in iteration order, and each socket's username), and
   * the store's answer for each token.
   */
  function Decide(headers: Headers, keys: seq<SocketId>, names: map<SocketId, string>,
                  lookup: string -> Fetch<UserRecord>): (v: Verdict)
    requires forall k :: k in keys ==> k in names
    ensures ExtractToken(headers.cookie).Err? ==> v == Aborted(ExtractToken(headers.cookie).error)
    ensures ExtractToken(headers.cookie).Ok? ==>
      (v.Aborted? <==> lookup(ExtractToken(headers.cookie).value).QueryFailed?)
    ensures ExtractToken(headers.cookie).Ok? && v.Aborted? ==> v.fault == LookupFailed
    ensures v.Accepted? ==> ExtractToken(headers.cookie).Ok? && lookup(ExtractToken(headers.cookie).value) == Found(v.user)
  {
    match ExtractToken(headers.cookie)
    case Err(f) => Aborted(f)
    case Ok(token) =>
      match lookup(token)
      case QueryFailed => Aborted(LookupFailed)
      case NoRow => Rejected(AuthenticationFailed)
      case Found(user) =>
        if !IpMatches(user.lastip, headers.realIp) then Rejected(IpMismatch)
        else if LastVisited(keys, names, user.username) == Some(true) then Rejected(AlreadyLoggedIn)
        else Accepted(user)
  }

  /**
   * A connection is accepted only for the user whose token it presented, only from
   * that user's last known address, and only if the last registered socket is not
   * already that user's.
   */
  lemma AcceptedOnlyFromRecordedOrigin(headers: Headers, keys: seq<SocketId>, names: map<SocketId, string>,
                                       lookup: string -> Fetch<UserRecord>)
    requires forall k :: k in keys ==> k in names
    requires Decide(headers, keys, names, lookup).Accepted?
    ensures var user := Decide(headers, keys, names, lookup).user;
      && headers.realIp.Some? && user.lastip == headers.realIp
      && ExtractToken(headers.cookie).Ok?
      && lookup(ExtractToken(headers.cookie).value) == Found(user)
      && (|keys| == 0 || names[keys[|keys| - 1]] != user.username)
  {
  }

  /** Each rejection reason is given exactly when its condition is the first to fail. */
  lemma RejectionReasons(headers: Headers, keys: seq<SocketId>, names: map<SocketId, string>,
                         lookup: string -> Fetch<UserRecord>, token: string)
    requires forall k :: k in keys ==> k in names
    requires ExtractToken(headers.cookie) == Ok(token)
    ensures Decide(headers, keys, names, lookup) == Rejected(AuthenticationFailed) <==> lookup(token).NoRow?
    ensures Decide(headers, keys, names, lookup) == Rejected(IpMismatch) <==>
      lookup(token).Found? && !IpMatches(lookup(token).row.lastip, headers.realIp)
    ensures Decide(headers, keys, names, lookup) == Rejected(AlreadyLoggedIn) <==>
      && lookup(token).Found? && IpMatches(lookup(token).row.lastip, headers.realIp)
      && |keys| > 0 && names[keys[|keys| - 1]] == lookup(token).row.username
  {
  }

  /**
   * A second session for a user is admitted whenever some other user's socket was
   * registered after the first one: the table then holds two sockets for the user.
   */
  lemma SecondSessionAdmitted(headers: Headers, keys: seq<SocketId>, names: map<SocketId, string>,
                                                 lookup: string -> Fetch<UserRecord>, token: string,
                                                 user: UserRecord, first: SocketId, id: SocketId)
    requires forall k :: k in keys ==> k in names
    requires ExtractToken(headers.cookie) == Ok(token) && lookup(token) == Found(user)
    requires IpMatches(user.lastip, headers.realIp)
    requires first in names && names[first] == user.username && id != first
    requires |keys| > 0 && names[keys[|keys| - 1]] != user.username
    ensures Decide(headers, keys, names, lookup) == Accepted(user)
    ensures var after := names[id := user.username];
      first in after && id in after && after[first] == after[id] == user.username
  {
  }

  // ---------------------------------------------------------------------------
  // State: the socket and the shared table

  /** The parts of a socket.io socket the handshake reads and writes. */
  class Socket {
    const id: SocketId
    /** `socket.handshake.headers` */
    const headers: Headers
    var userid: Option<int>
    var username: Option<string>
    var permissions: Option<int>
    /** Every `emit` call made on the socket, in order. */
    var emitted: seq<Message>
    var connected: bool
    /** The `create-character` and `get-character` listeners are attached. */
    var listening: bool

    constructor (id: SocketId, headers: Headers)
      ensures this.id == id && this.headers == headers
      ensures userid.None? && username.None? && permissions.None?
      ensures emitted == [] && connected && !listening
    {
      this.id := id;
      this.headers := headers;
      userid, username, permissions := None, None, None;
      emitted := [];
      connected := true;
      listening := false;
    }

    /** `socket.emit(...)` */
    method Emit(m: Message)
      modifies this`emitted
      ensures emitted == old(emitted) + [m]
    {
      emitted := emitted + [m];
    }

    /** `socket.disconnect(true)` */
    method Disconnect()
      modifies this`connected
      ensures !connected
    {
      connected := false;
    }
  }

  /**
   * The shared `sockets` object: its keys in iteration order (insertion order) and,
   * for each key, the username of the socket stored there.
   */
  class Registry {
    var keys: seq<SocketId>
    var names: map<SocketId, string>

    ghost predicate Valid()
      reads this
    {
      && (forall i, j :: 0 <= i < j < |keys| ==> keys[i] != keys[j])
      && (forall k :: k in names <==> k in keys)
    }

    constructor ()
      ensures Valid() && keys == [] && names == map[]
    {
      keys := [];
      names := map[];
    }

    /**
     * `sockets[id] = socket`: overwrite the entry in place if the key exists, or add
     * it as the last key; no other entry changes.
     */
    method Put(id: SocketId, username: string)
      requires Valid()
      modifies this
      ensures Valid()
      ensures names == old(names)[id := username]
      ensures keys == if id in old(names) then old(keys) else old(keys) + [id]
      ensures forall k :: k in old(names) && k != id ==> k in names && names[k] == old(names)[k]
    {
      if id !in names {
        keys := keys + [id];
      }
      names := names[id := username];
    }
  }

  // ---------------------------------------------------------------------------
  // The handshake

  /** A rejection branch: `socket.emit('error', reason)` then `socket.disconnect(true)`. */
  method Reject(socket: Socket, reason: Reason)
    modifies socket`emitted, socket`connected
    ensures socket.emitted == old(socket.emitted) + [ErrorMessage(ReasonText(reason))]
    ensures !socket.connected
  {
    socket.Emit(ErrorMessage(ReasonText(reason)));
    socket.Disconnect();
  }

  /** The accepting branch: copy the identity onto the socket and register it. */
  method Admit(socket: Socket, sockets: Registry, user: UserRecord)
    requires sockets.Valid()
    modifies socket`userid, socket`username, socket`permissions, sockets
    ensures sockets.Valid()
    ensures socket.userid == Some(user.id) && socket.username == Some(user.username)
    ensures socket.permissions == Some(user.permissions)
    ensures sockets.names == old(sockets.names)[socket.id := user.username]
    ensures sockets.keys == if socket.id in old(sockets.names) then old(sockets.keys) else old(sockets.keys) + [socket.id]
  {
    socket.userid := Some(user.id);
    socket.username := Some(user.username);
    socket.permissions := Some(user.permissions);
    sockets.Put(socket.id, user.username);
  }

  /**
   * The part of `character` before the `hello` emit.  The user lookup is the only
   * suspension point, and it comes before the table is read, so the duplicate
   * check and the insertion form one atomic step here as in the code.
   */
  method Authenticate(socket: Socket, sockets: Registry, lookup: string -> Fetch<UserRecord>) returns (v: Verdict)
    requires sockets.Valid()
    modifies socket`userid, socket`username, socket`permissions, socket`emitted, socket`connected, sockets
    ensures sockets.Valid()
    ensures v == Decide(socket.headers, old(sockets.keys), old(sockets.names), lookup)
    ensures !v.Accepted? ==> unchanged(sockets)
    ensures !v.Accepted? ==>
      && socket.userid == old(socket.userid) && socket.username == old(socket.username)
      && socket.permissions == old(socket.permissions)
    ensures v.Aborted? ==> socket.emitted == old(socket.emitted) && socket.connected == old(socket.connected)
    ensures v.Rejected? ==> socket.emitted == old(socket.emitted) + [ErrorMessage(ReasonText(v.reason))] && !socket.connected
    ensures v.Accepted? ==>
      && socket.userid == Some(v.user.id) && socket.username == Some(v.user.username)
      && socket.permissions == Some(v.user.permissions)
      && socket.emitted == old(socket.emitted) && socket.connected == old(socket.connected)
      && sockets.names == old(sockets.names)[socket.id := v.user.username]
      && sockets.keys == (if socket.id in old(sockets.names) then old(sockets.keys) else old(sockets.keys) + [socket.id])
  {
    var ip := socket.headers.realIp;
    var hexToken := ExtractToken(socket.headers.cookie);
    if hexToken.Err? {
      return Aborted(hexToken.error);
    }
    var userInfo := lookup(hexToken.value);
    match userInfo {
      case QueryFailed =>
        v := Aborted(LookupFailed);
      case NoRow =>
        v := Rejected(AuthenticationFailed);
        Reject(socket, v.reason);
      case Found(user) =>
        if user.lastip.Some? && user.lastip == ip {
          var loggedIn := LastVisitedMatch(sockets.keys, sockets.names, user.username);
          if loggedIn == Some(true) {
            v := Rejected(AlreadyLoggedIn);
            Reject(socket, v.reason);
          } else {
            v := Accepted(user);
            Admit(socket, sockets, user);
          }
        } else {
          v := Rejected(IpMismatch);
          Reject(socket, v.reason);
        }
    }
  }

  /**
   * `character(socket, sockets, sql)` up to the listener registrations: the
   * handshake, then `hello` with whatever identity the socket now carries, then
   * the command listeners.  A thrown error skips all of that.
   */
  method Handshake(socket: Socket, sockets: Registry, lookup: string -> Fetch<UserRecord>) returns (v: Verdict)
    requires sockets.Valid()
    modifies socket, sockets
    ensures sockets.Valid()
    ensures v == Decide(socket.headers, old(sockets.keys), old(sockets.names), lookup)
    ensures v.Aborted? ==> unchanged(socket) && unchanged(sockets)
    ensures !v.Accepted? ==> unchanged(sockets)
    ensures v.Rejected? ==>
      && socket.userid == old(socket.userid) && socket.username == old(socket.username)
      && socket.permissions == old(socket.permissions)
      && socket.emitted == old(socket.emitted) +
           [ErrorMessage(ReasonText(v.reason)), Hello(old(socket.userid), old(socket.username), old(socket.permissions))]
      && !socket.connected && socket.listening
    ensures v.Accepted? ==>
      && socket.userid == Some(v.user.id) && socket.username == Some(v.user.username)
      && socket.permissions == Some(v.user.permissions)
      && socket.emitted == old(socket.emitted) + [Hello(Some(v.user.id), Some(v.user.username), Some(v.user.permissions))]
      && socket.connected == old(socket.connected) && socket.listening
      && sockets.names == old(sockets.names)[socket.id := v.user.username]
      && sockets.keys == (if socket.id in old(sockets.names) then old(sockets.keys) else old(sockets.keys) + [socket.id])
  {
    v := Authenticate(socket, sockets, lookup);
    if v.Aborted? {
      return;
    }
    Greet(socket);
  }

  /** `socket.emit('hello', …)` with the socket's current identity, then the listeners. */
  method Greet(socket: Socket)
    modifies socket`emitted, socket`listening
    ensures socket.emitted == old(socket.emitted) + [Hello(socket.userid, socket.username, socket.permissions)]
    ensures socket.listening
  {
    socket.Emit(Hello(socket.userid, socket.username, socket.permissions));
    socket.listening := true;
  }

  // ---------------------------------------------------------------------------
  // Character commands

  /** The `create-character` payload: `{class, gender}`. */
  datatype CharacterData = CharacterData(charClass: int, gender: int)

  /** Identifies the client's acknowledgement function passed with a command. */
  type CallbackId = nat

  /**
   * `createHandler.bind(null, data, callback)`: the handler closes over the socket.
   * A client may leave out the payload or the acknowledgement function; `None`
   * stands for an argument that is `undefined` (or not a function, for the ack).
   */
  datatype CreateJob = CreateJob(socket: Socket, data: Option<CharacterData>, callback: Option<CallbackId>)

  /** The values of the INSERT into the league table. */
  datatype NewCharacter = NewCharacter(uid: Option<int>, charClass: int, gender: string)

  /** What a handler passes to `callback`: the row, `{}`, or `null`. */
  datatype Ack = RowAck(row: Row) | EmptyAck | NullAck

  /** How a handler ends: it throws (its promise rejects), or it calls `callback` once. */
  datatype Completion = Threw | Acked(ack: Ack)

  /** The INSERT query: it rejects, or resolves with a truthy or falsy result. */
  datatype InsertAnswer = InsertRejected | InsertResolved(truthy: bool)

  /** `data.gender > 1 ? 'male' : 'female'` */
  function GenderName(gender: int): (g: string)
    ensures g == "male" <==> gender > 1
    ensures g == "female" <==> gender <= 1
  {
    if gender > 1 then "male" else "female"
  }

  /** The values `createHandler` inserts for the socket's user. */
  function InsertValues(userid: Option<int>, data: CharacterData): (c: NewCharacter)
    ensures c.uid == userid && c.charClass == data.charClass
    ensures c.gender == GenderName(data.gender)
  {
    NewCharacter(userid, data.charClass, GenderName(data.gender))
  }

  /** `callback(ack)`: calling an acknowledgement that is not a function throws a TypeError. */
  function Acknowledge(callback: Option<CallbackId>, ack: Ack): (c: Completion)
    ensures c.Threw? <==> callback.None?
    ensures c.Acked? ==> c.ack == ack
  {
    if callback.None? then Threw else Acked(ack)
  }

  /**
   * How `createHandler` ends, given its arguments and the store's answers to its
   * INSERT and its re-read.  Without a payload, reading `data.class` throws before
   * any query is sent; without an acknowledgement, the queries run and the final
   * `callback(...)` throws.
   */
  function CreateCompletion(data: Option<CharacterData>, callback: Option<CallbackId>,
                            insert: InsertAnswer, reread: Fetch<Row>): (c: Completion)
    ensures data.None? ==> c == Threw
    ensures data.Some? ==>
      (c.Threw? <==> insert.InsertRejected? || (insert.truthy && reread.QueryFailed?) || callback.None?)
    ensures callback.None? ==> c == Threw
    ensures data.Some? && callback.Some? && insert == InsertResolved(false) ==> c == Acked(EmptyAck)
    ensures data.Some? && callback.Some? && insert == InsertResolved(true) && reread.Found? ==>
      c == Acked(RowAck(reread.row))
    ensures data.Some? && callback.Some? && insert == InsertResolved(true) && reread.NoRow? ==>
      c == Acked(NullAck)
  {
    if data.None? then Threw
    else
      match insert
      case InsertRejected => Threw
      case InsertResolved(truthy) =>
        if truthy then
          match reread
          case QueryFailed => Threw
          case NoRow => Acknowledge(callback, NullAck)
          case Found(row) => Acknowledge(callback, RowAck(row))
        else Acknowledge(callback, EmptyAck)
  }

  /**
   * `createHandler(data, callback)` when the queue runs it: the INSERT values are
   * read from the socket at that moment (no INSERT is sent when the payload is
   * missing); a falsy INSERT result also emits `error 'character create failed'`,
   * before the acknowledgement is attempted.
   */
  method RunCreateJob(job: CreateJob, insert: InsertAnswer, reread: Fetch<Row>)
    returns (values: Option<NewCharacter>, c: Completion)
    modifies job.socket`emitted
    ensures values.None? <==> job.data.None?
    ensures job.data.Some? ==> values == Some(InsertValues(job.socket.userid, job.data.value))
    ensures c == CreateCompletion(job.data, job.callback, insert, reread)
    ensures job.socket.emitted == old(job.socket.emitted) +
      (if job.data.Some? && insert == InsertResolved(false) then [ErrorMessage("character create failed")] else [])
  {
    c := CreateCompletion(job.data, job.callback, insert, reread);
    if job.data.None? {
      return None, c;
    }
    var data := job.data.value;
    values := Some(NewCharacter(job.socket.userid, data.charClass, GenderName(data.gender)));
    if insert == InsertResolved(false) {
      job.socket.Emit(ErrorMessage("character create failed"));
    }
  }

  /** The `create-character` listener: it only enqueues the bound handler. */
  method OnCreateCharacter(socket: Socket, queue: TaskQueue.Queue<CreateJob>,
                           data: Option<CharacterData>, callback: Option<CallbackId>)
    requires socket.listening && queue.Valid()
    modifies queue`items
    ensures queue.Valid()
    ensures queue.items == [TaskQueue.Task(CreateJob(socket, data, callback))] + old(queue.items)
    ensures TaskQueue.Waiting(queue.items) == TaskQueue.Waiting(old(queue.items)) + [CreateJob(socket, data, callback)]
  {
    queue.AddToQueue(CreateJob(socket, data, callback));
  }

  /**
   * The `get-character` listener: the row if there is one, `{}` if not; a failed
   * query throws, and so does the acknowledgement when it is not a function.
   */
  function GetCharacter(fetch: Fetch<Row>, callback: Option<CallbackId>): (c: Completion)
    ensures c.Threw? <==> fetch.QueryFailed? || callback.None?
    ensures c.Acked? ==> c.ack != NullAck
    ensures c == Acked(EmptyAck) <==> fetch.NoRow? && callback.Some?
    ensures fetch.Found? && callback.Some? ==> c == Acked(RowAck(fetch.row))
  {
    match fetch
    case QueryFailed => Threw
    case NoRow => Acknowledge(callback, EmptyAck)
    case Found(row) => Acknowledge(callback, RowAck(row))
  }

  /** The queue event a settled `createHandler` produces. */
  function SettleEvent(c: Completion): TaskQueue.Event<CreateJob> {
    if c.Threw? then TaskQueue.Rejected else TaskQueue.Resolved
  }

  /**
   * A `createHandler` that throws (its INSERT or re-read query rejects, or it was
   * sent without a payload or without an acknowledgement) stalls the queue: the
   * tick starts it as the oldest task, its rejection leaves the placeholder behind,
   * and no task enqueued afterwards, by any socket, ever runs.
   */
  lemma FailedCreateStallsQueue(s: TaskQueue.QState<CreateJob>, job: CreateJob,
                                insert: InsertAnswer, reread: Fetch<Row>,
                                es: seq<TaskQueue.Event<CreateJob>>)
    requires TaskQueue.Inv(s) && TaskQueue.CanStart(s.arr) && s.arr[|s.arr| - 1] == TaskQueue.Task(job)
    requires CreateCompletion(job.data, job.callback, insert, reread).Threw?
    ensures var t := TaskQueue.Replay(s, [TaskQueue.Timer, SettleEvent(CreateCompletion(job.data, job.callback, insert, reread))] + es);
      && t.started == [job]
      && TaskQueue.Stalled(t.last)
  {
    var events := [TaskQueue.Timer, TaskQueue.Rejected] + es;
    var started := TaskQueue.Next(s, TaskQueue.Timer);
    var settled := TaskQueue.Next(started.next, TaskQueue.Rejected);
    TaskQueue.ReplayCons(s, events);
    assert events[1..] == [TaskQueue.Rejected] + es;
    TaskQueue.ReplayCons(started.next, events[1..]);
    assert events[1..][1..] == es;
    TaskQueue.RejectStalls(started.next);
    TaskQueue.StalledForever(settled.next, es);
  }

  /**
   * A `create-character` sent without an acknowledgement stalls the queue whatever
   * the store answers: the handler's `callback(...)` throws.
   */
  lemma MissingAckStallsQueue(s: TaskQueue.QState<CreateJob>, job: CreateJob,
                              insert: InsertAnswer, reread: Fetch<Row>,
                              es: seq<TaskQueue.Event<CreateJob>>)
    requires TaskQueue.Inv(s) && TaskQueue.CanStart(s.arr) && s.arr[|s.arr| - 1] == TaskQueue.Task(job)
    requires job.callback.None?
    ensures var t := TaskQueue.Replay(s, [TaskQueue.Timer, SettleEvent(CreateCompletion(job.data, job.callback, insert, reread))] + es);
      && t.started == [job]
      && TaskQueue.Stalled(t.last)
  {
    FailedCreateStallsQueue(s, job, insert, reread, es);
  }
}
