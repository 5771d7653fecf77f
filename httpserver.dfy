/**
 * The HTTP server's route handlers over an in-memory model of its
 * relational store: users looked up by username, rooms by their unique
 * slug, shapes and chat messages filed under a room id with a creation
 * time. Each handler returns the status code and JSON body it sends and
 * changes only the tables it writes to. Password hashing, token signing
 * and Zod's URL check are parameters.
 */
module HttpServer {
  import opened Wrappers
  import opened Identity
  import opened Schemas
  import opened Ordering

  /** The cost factor passed to `bcrypt.hash`. */
  const BcryptRounds: nat := 10
  /** The `expiresIn: "24h"` of every signed token, in seconds. */
  const TokenLifetime: int := 24 * 60 * 60

  const Ok := 200
  const Created := 201
  const BadRequest := 400
  const Unauthorized := 401
  const NotFound := 404
  const ServerError := 500

  datatype User = User(id: nat, username: string, passwordHash: string, name: string, photo: Option<string>)
  datatype Room = Room(id: nat, slug: string, adminId: nat)
  datatype Shape = Shape(id: string, roomId: nat, userId: nat, createdAt: int, drawing: string)
  datatype Chat = Chat(id: nat, roomId: nat, userId: nat, message: string, createdAt: int)

  /** The JSON bodies the handlers send. */
  datatype Body =
    | Error(error: string)
    | Session(message: string, token: string, user: Claims)
    | RoomCreated(message: string, room: Room)
    | RoomInfo(room: Room)
    | ShapeList(shapes: seq<Shape>)
    | ChatList(chats: Option<seq<Chat>>)
    | Message(message: string)

  datatype Response = Response(status: int, body: Body)

  function ShapeTime(s: Shape): int { s.createdAt }
  function ChatTime(c: Chat): int { c.createdAt }

  // ---------------------------------------------------------------------
  // Queries on the tables

  /** `user.findFirst({ where: { username } })` */
  function FindUser(users: seq<User>, username: string): (r: Option<User>)
    ensures r.Some? ==> r.value in users && r.value.username == username
    ensures r.None? <==> forall u :: u in users ==> u.username != username
  {
    if users == [] then None
    else if users[0].username == username then Some(users[0])
    else FindUser(users[1..], username)
  }

  /** `room.findUnique({ where: { slug } })` */
  function FindRoom(rooms: seq<Room>, slug: string): (r: Option<Room>)
    ensures r.Some? ==> r.value in rooms && r.value.slug == slug
    ensures r.None? <==> forall rm :: rm in rooms ==> rm.slug != slug
  {
    if rooms == [] then None
    else if rooms[0].slug == slug then Some(rooms[0])
    else FindRoom(rooms[1..], slug)
  }

  /** The rows of `shape.findMany({ where: { room_id } })`, in table order. */
  function ShapesIn(shapes: seq<Shape>, roomId: nat): (r: seq<Shape>)
    ensures forall s :: s in r <==> s in shapes && s.roomId == roomId
  {
    if shapes == [] then []
    else (if shapes[0].roomId == roomId then [shapes[0]] else []) + ShapesIn(shapes[1..], roomId)
  }

  /** The shape table after `shape.deleteMany({ where: { room_id } })`. */
  function ShapesOutside(shapes: seq<Shape>, roomId: nat): (r: seq<Shape>)
    ensures forall s :: s in r <==> s in shapes && s.roomId != roomId
  {
    if shapes == [] then []
    else (if shapes[0].roomId != roomId then [shapes[0]] else []) + ShapesOutside(shapes[1..], roomId)
  }

  /** The chat messages of one room, in table order. */
  function ChatsIn(chats: seq<Chat>, roomId: nat): (r: seq<Chat>)
    ensures forall c :: c in r <==> c in chats && c.roomId == roomId
  {
    if chats == [] then []
    else (if chats[0].roomId == roomId then [chats[0]] else []) + ChatsIn(chats[1..], roomId)
  }

  // ---------------------------------------------------------------------
  // Table invariants

  predicate UniqueUsernames(users: seq<User>)
  {
    forall i, j :: 0 <= i < j < |users| ==> users[i].username != users[j].username
  }

  predicate UniqueSlugs(rooms: seq<Room>)
  {
    forall i, j :: 0 <= i < j < |rooms| ==> rooms[i].slug != rooms[j].slug
  }

  /** Every user id is below `next` and no two users share one. */
  predicate UserIdsFresh(users: seq<User>, next: nat)
  {
    && (forall i :: 0 <= i < |users| ==> users[i].id < next)
    && (forall i, j :: 0 <= i < j < |users| ==> users[i].id != users[j].id)
  }

  predicate RoomIdsFresh(rooms: seq<Room>, next: nat)
  {
    && (forall i :: 0 <= i < |rooms| ==> rooms[i].id < next)
    && (forall i, j :: 0 <= i < j < |rooms| ==> rooms[i].id != rooms[j].id)
  }

  /** With unique usernames, `findFirst` finds the one user of that name. */
  lemma FindUserUnique(users: seq<User>, u: User)
    requires UniqueUsernames(users) && u in users
    ensures FindUser(users, u.username) == Some(u)
  {
  }

  lemma FindRoomUnique(rooms: seq<Room>, rm: Room)
    requires UniqueSlugs(rooms) && rm in rooms
    ensures FindRoom(rooms, rm.slug) == Some(rm)
  {
  }

  /** Adding a user whose name is not yet taken keeps usernames unique. */
  lemma AddUserKeepsUsernamesUnique(users: seq<User>, u: User)
    requires UniqueUsernames(users) && FindUser(users, u.username).None?
    ensures UniqueUsernames(users + [u])
  {
  }

  /** Deleting a room's shapes leaves the rest of the table: the table splits into the two parts. */
  lemma {:induction false} ShapesPartition(shapes: seq<Shape>, roomId: nat)
    ensures multiset(shapes) == multiset(ShapesIn(shapes, roomId)) + multiset(ShapesOutside(shapes, roomId))
  {
    if shapes != [] {
      ShapesPartition(shapes[1..], roomId);
      assert shapes == [shapes[0]] + shapes[1..];
    }
  }

  /** Each message of the room is selected as often as it occurs in the table, and no other message is. */
  lemma {:induction false} ChatsCounted(chats: seq<Chat>, roomId: nat, c: Chat)
    ensures multiset(ChatsIn(chats, roomId))[c] == if c.roomId == roomId then multiset(chats)[c] else 0
  {
    if chats != [] {
      ChatsCounted(chats[1..], roomId, c);
      assert chats == [chats[0]] + chats[1..];
    }
  }

  /** After clearing a room none of its shapes remain. */
  lemma {:induction false} ClearEmptiesRoom(shapes: seq<Shape>, roomId: nat)
    ensures ShapesIn(ShapesOutside(shapes, roomId), roomId) == []
  {
    if shapes != [] {
      ClearEmptiesRoom(shapes[1..], roomId);
      if shapes[0].roomId != roomId {
        assert ShapesOutside(shapes, roomId) == [shapes[0]] + ShapesOutside(shapes[1..], roomId);
        assert ShapesOutside(shapes, roomId)[1..] == ShapesOutside(shapes[1..], roomId);
      } else {
        var rest := ShapesOutside(shapes[1..], roomId);
        assert [] + rest == rest;
        assert ShapesOutside(shapes, roomId) == rest;
      }
    }
  }

  /** Clearing one room leaves every other room's shapes exactly as they were, in order. */
  lemma {:induction false} ClearKeepsOtherRooms(shapes: seq<Shape>, roomId: nat, other: nat)
    requires other != roomId
    ensures ShapesIn(ShapesOutside(shapes, roomId), other) == ShapesIn(shapes, other)
  {
    if shapes != [] {
      ClearKeepsOtherRooms(shapes[1..], roomId, other);
      if shapes[0].roomId != roomId {
        assert ShapesOutside(shapes, roomId) == [shapes[0]] + ShapesOutside(shapes[1..], roomId);
        assert ShapesOutside(shapes, roomId)[1..] == ShapesOutside(shapes[1..], roomId);
      } else {
        var rest := ShapesOutside(shapes[1..], roomId);
        assert [] + rest == rest;
        assert ShapesOutside(shapes, roomId) == rest;
        var kept := ShapesIn(shapes[1..], other);
        assert [] + kept == kept;
        assert ShapesIn(shapes, other) == kept;
      }
    }
  }

  /** Clearing a room's shapes twice is the same as clearing them once. */
  lemma {:induction false} ClearIdempotent(shapes: seq<Shape>, roomId: nat)
    ensures ShapesOutside(ShapesOutside(shapes, roomId), roomId) == ShapesOutside(shapes, roomId)
  {
    if shapes != [] {
      ClearIdempotent(shapes[1..], roomId);
      if shapes[0].roomId != roomId {
        assert ShapesOutside(shapes, roomId) == [shapes[0]] + ShapesOutside(shapes[1..], roomId);
        assert ShapesOutside(shapes, roomId)[1..] == ShapesOutside(shapes[1..], roomId);
      } else {
        var rest := ShapesOutside(shapes[1..], roomId);
        assert [] + rest == rest;
        assert ShapesOutside(shapes, roomId) == rest;
      }
    }
  }

  // ---------------------------------------------------------------------
  // The store and the handlers

  class Store {
    var users: seq<User>
    var rooms: seq<Room>
    var shapes: seq<Shape>
    var chats: seq<Chat>
    /** The ids the store assigns to the next user and the next room it creates. */
    var nextUserId: nat
    var nextRoomId: nat

    /** The constraints the store keeps: unique usernames (checked by sign-up), unique slugs, fresh ids. */
    ghost predicate Valid()
      reads this
    {
      && UniqueUsernames(users)
      && UniqueSlugs(rooms)
      && UserIdsFresh(users, nextUserId)
      && RoomIdsFresh(rooms, nextRoomId)
    }

    /** A store holding the given tables. */
    constructor (users: seq<User>, rooms: seq<Room>, shapes: seq<Shape>, chats: seq<Chat>,
                 nextUserId: nat, nextRoomId: nat)
      requires UniqueUsernames(users) && UniqueSlugs(rooms)
      requires UserIdsFresh(users, nextUserId) && RoomIdsFresh(rooms, nextRoomId)
      ensures Valid()
      ensures this.users == users && this.rooms == rooms && this.shapes == shapes && this.chats == chats
      ensures this.nextUserId == nextUserId && this.nextRoomId == nextRoomId
    {
      this.users, this.rooms, this.shapes, this.chats := users, rooms, shapes, chats;
      this.nextUserId, this.nextRoomId := nextUserId, nextRoomId;
    }

    /** `POST /signup` */
    method Signup(body: Json, isUrl: string -> bool, hash: (string, nat) -> string,
                  sign: (Claims, int) -> string) returns (r: Response)
      requires Valid()
      modifies this`users, this`nextUserId
      ensures Valid()
      ensures ParseCreateUser(body, isUrl).None? ==>
                && r == Response(BadRequest, Error("Username, password and name are required"))
                && users == old(users) && nextUserId == old(nextUserId)
      ensures ParseCreateUser(body, isUrl).Some?
              && (exists u :: u in old(users) && u.username == ParseCreateUser(body, isUrl).value.username) ==>
                && r == Response(BadRequest, Error("User already exists"))
                && users == old(users) && nextUserId == old(nextUserId)
      ensures r.status == Created <==>
                && ParseCreateUser(body, isUrl).Some?
                && forall u :: u in old(users) ==> u.username != ParseCreateUser(body, isUrl).value.username
      ensures r.status == Created ==>
                var d := ParseCreateUser(body, isUrl).value;
                var u := User(old(nextUserId), d.username, hash(d.password, BcryptRounds), d.name, d.photo);
                && users == old(users) + [u]
                && r == Response(Created, Session("User created successfully",
                                                  sign(Claims(u.id, u.username), TokenLifetime),
                                                  Claims(u.id, u.username)))
    {
      var parsed := ParseCreateUser(body, isUrl);
      if parsed.None? {
        return Response(BadRequest, Error("Username, password and name are required"));
      }
      var d := parsed.value;
      var existing := FindUser(users, d.username);
      if existing.Some? {
        return Response(BadRequest, Error("User already exists"));
      }
      var hashed := hash(d.password, BcryptRounds);
      var newUser := User(nextUserId, d.username, hashed, d.name, d.photo);
      AddUserKeepsUsernamesUnique(users, newUser);
      users := users + [newUser];
      nextUserId := nextUserId + 1;
      var token := sign(Claims(newUser.id, newUser.username), TokenLifetime);
      r := Response(Created, Session("User created successfully", token, Claims(newUser.id, newUser.username)));
    }

    /**
     * `POST /signin`: an unknown username and a wrong password get the
     * same answer, so a client cannot tell which usernames exist.
     */
    method Signin(body: Json, compare: (string, string) -> bool, sign: (Claims, int) -> string)
      returns (r: Response)
      requires Valid()
      ensures r.status in {Ok, BadRequest, Unauthorized}
      ensures ParseLogin(body).None? ==> r == Response(BadRequest, Error("Username and password are required"))
      ensures ParseLogin(body).Some? ==> r.status in {Ok, Unauthorized}
      ensures ParseLogin(body).Some? ==>
                var l := ParseLogin(body).value;
                (exists u :: u in users && u.username == l.username && compare(l.password, u.passwordHash))
                ==> r.status == Ok
      ensures ParseLogin(body).Some? ==>
                var l := ParseLogin(body).value;
                r.status == Unauthorized
                <==> forall u :: u in users && u.username == l.username ==> !compare(l.password, u.passwordHash)
      ensures r.status == Unauthorized ==> r.body == Error("Invalid credentials")
      ensures r.status == Ok ==>
                var l := ParseLogin(body).value;
                exists u :: && u in users && u.username == l.username && compare(l.password, u.passwordHash)
                            && r.body == Session("Login successful", sign(Claims(u.id, u.username), TokenLifetime),
                                                 Claims(u.id, u.username))
    {
      var parsed := ParseLogin(body);
      if parsed.None? {
        return Response(BadRequest, Error("Username and password are required"));
      }
      var l := parsed.value;
      var user := FindUser(users, l.username);
      if user.None? {
        return Response(Unauthorized, Error("Invalid credentials"));
      }
      var u := user.value;
      if !compare(l.password, u.passwordHash) {
        forall v | v in users && v.username == l.username ensures !compare(l.password, v.passwordHash) {
          FindUserUnique(users, v);
        }
        return Response(Unauthorized, Error("Invalid credentials"));
      }
      var token := sign(Claims(u.id, u.username), TokenLifetime);
      r := Response(Ok, Session("Login successful", token, Claims(u.id, u.username)));
    }

    /** `POST /create-room`, after the middleware has attached `caller`; a taken slug fails the unique constraint. */
    method CreateRoom(body: Json, caller: Claims) returns (r: Response)
      requires Valid()
      modifies this`rooms, this`nextRoomId
      ensures Valid()
      ensures ParseCreateRoom(body).None? ==>
                && r == Response(BadRequest, Error("Invalid room data"))
                && rooms == old(rooms) && nextRoomId == old(nextRoomId)
      ensures ParseCreateRoom(body).Some?
              && (exists rm :: rm in old(rooms) && rm.slug == ParseCreateRoom(body).value.slug) ==>
                && r == Response(ServerError, Error("Internal server error"))
                && rooms == old(rooms) && nextRoomId == old(nextRoomId)
      ensures r.status == Created <==>
                && ParseCreateRoom(body).Some?
                && forall rm :: rm in old(rooms) ==> rm.slug != ParseCreateRoom(body).value.slug
      ensures r.status == Created ==>
                var room := Room(old(nextRoomId), ParseCreateRoom(body).value.slug, caller.id);
                && rooms == old(rooms) + [room]
                && r == Response(Created, RoomCreated("Room created successfully", room))
    {
      var parsed := ParseCreateRoom(body);
      if parsed.None? {
        return Response(BadRequest, Error("Invalid room data"));
      }
      var slug := parsed.value.slug;
      if FindRoom(rooms, slug).Some? {
        return Response(ServerError, Error("Internal server error"));
      }
      var room := Room(nextRoomId, slug, caller.id);
      rooms := rooms + [room];
      nextRoomId := nextRoomId + 1;
      r := Response(Created, RoomCreated("Room created successfully", room));
    }

    /** `GET /rooms/:slug` */
    method GetRoom(slug: string) returns (r: Response)
      requires Valid()
      ensures slug == "" ==> r == Response(BadRequest, Error("Room slug is required"))
      ensures slug != "" && (forall rm :: rm in rooms ==> rm.slug != slug) ==>
                r == Response(NotFound, Error("Room not found"))
      ensures r.status == Ok <==> slug != "" && exists rm :: rm in rooms && rm.slug == slug
      ensures r.status == Ok ==> forall rm :: rm in rooms && rm.slug == slug ==> r.body == RoomInfo(rm)
    {
      if slug == "" {
        return Response(BadRequest, Error("Room slug is required"));
      }
      var room := FindRoom(rooms, slug);
      if room.None? {
        return Response(NotFound, Error("Room not found"));
      }
      forall rm | rm in rooms && rm.slug == slug ensures room == Some(rm) {
        FindRoomUnique(rooms, rm);
      }
      r := Response(Ok, RoomInfo(room.value));
    }

    /** `GET /rooms/:slug/shapes`: the room's shapes, oldest first. */
    method ListShapes(slug: string) returns (r: Response)
      requires Valid()
      ensures slug == "" ==> r == Response(BadRequest, Error("Room slug is required"))
      ensures slug != "" && (forall rm :: rm in rooms ==> rm.slug != slug) ==>
                r == Response(NotFound, Error("Room not found"))
      ensures r.status == Ok <==> slug != "" && exists rm :: rm in rooms && rm.slug == slug
      ensures r.status == Ok ==>
                && r.body.ShapeList?
                && SortedBy(r.body.shapes, ShapeTime)
                && forall rm :: rm in rooms && rm.slug == slug ==>
                     && multiset(r.body.shapes) == multiset(ShapesIn(shapes, rm.id))
                     && forall s :: s in r.body.shapes <==> s in shapes && s.roomId == rm.id
    {
      if slug == "" {
        return Response(BadRequest, Error("Room slug is required"));
      }
      var room := FindRoom(rooms, slug);
      if room.None? {
        return Response(NotFound, Error("Room not found"));
      }
      var found := ShapesIn(shapes, room.value.id);
      var ordered := SortBy(found, ShapeTime);
      forall rm | rm in rooms && rm.slug == slug
        ensures multiset(ordered) == multiset(ShapesIn(shapes, rm.id))
        ensures forall s :: s in ordered <==> s in shapes && s.roomId == rm.id
      {
        FindRoomUnique(rooms, rm);
        forall s ensures s in ordered <==> s in found {
          SortByKeepsMembers(found, ShapeTime, s);
        }
      }
      r := Response(Ok, ShapeList(ordered));
    }

    /**
     * `GET /rooms/:slug/chats`: the room's messages, oldest first. For an
     * unknown slug the relation query yields `null`, sent as `{ chats: null }`
     * with status 200.
     */
    method ListChats(slug: string) returns (r: Response)
      requires Valid()
      ensures slug == "" ==> r == Response(BadRequest, Error("Room slug is required"))
      ensures slug != "" ==> r.status == Ok && r.body.ChatList?
      ensures slug != "" && (forall rm :: rm in rooms ==> rm.slug != slug) ==> r == Response(Ok, ChatList(None))
      ensures slug != "" ==> forall rm :: rm in rooms && rm.slug == slug ==>
                && r.body.chats.Some?
                && SortedBy(r.body.chats.value, ChatTime)
                && multiset(r.body.chats.value) == multiset(ChatsIn(chats, rm.id))
    {
      if slug == "" {
        return Response(BadRequest, Error("Room slug is required"));
      }
      var room := FindRoom(rooms, slug);
      if room.None? {
        return Response(Ok, ChatList(None));
      }
      forall rm | rm in rooms && rm.slug == slug ensures room == Some(rm) {
        FindRoomUnique(rooms, rm);
      }
      r := Response(Ok, ChatList(Some(SortBy(ChatsIn(chats, room.value.id), ChatTime))));
    }

    /** `DELETE /rooms/:slug/shapes`: clear one room's canvas. */
    method ClearShapes(slug: string) returns (r: Response)
      requires Valid()
      modifies this`shapes
      ensures Valid()
      ensures (forall rm :: rm in rooms ==> rm.slug != slug) ==>
                r == Response(NotFound, Error("Room not found")) && shapes == old(shapes)
      ensures r.status == Ok <==> exists rm :: rm in rooms && rm.slug == slug
      ensures r.status == Ok ==>
                && r.body == Message("All shapes deleted")
                && forall rm :: rm in rooms && rm.slug == slug ==> shapes == ShapesOutside(old(shapes), rm.id)
    {
      var room := FindRoom(rooms, slug);
      if room.None? {
        return Response(NotFound, Error("Room not found"));
      }
      forall rm | rm in rooms && rm.slug == slug ensures room == Some(rm) {
        FindRoomUnique(rooms, rm);
      }
      shapes := ShapesOutside(shapes, room.value.id);
      r := Response(Ok, Message("All shapes deleted"));
    }
  }
}
