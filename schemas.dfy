/**
 * The request-body schemas shared by the HTTP server: `CreateUserSchema`,
 * `LoginUserSchema` and `CreateRoomSchema`, written with Zod. A schema
 * is modelled as a parse function from a JSON body to an optional record;
 * Zod's `safeParse` succeeds exactly when the function returns `Some`.
 */
module Schemas {
  import opened Wrappers

  /** A parsed JSON body; only strings and objects matter to the schemas. */
  datatype Json = JString(str: string) | JObject(fields: map<string, Json>) | JOther

  const UsernameMin: nat := 3
  const UsernameMax: nat := 20
  const PasswordMin: nat := 6
  const PasswordMax: nat := 100
  const NameMin: nat := 1
  const NameMax: nat := 50
  const SlugMin: nat := 1
  const SlugMax: nat := 50

  /** The data `CreateUserSchema` yields; `photo` is optional. */
  datatype NewUser = NewUser(username: string, password: string, name: string, photo: Option<string>)

  /** The data `LoginUserSchema` yields. */
  datatype Login = Login(username: string, password: string)

  /** The data `CreateRoomSchema` yields. */
  datatype NewRoom = NewRoom(slug: string)

  /**
   * The `length` of a JavaScript string, which Zod's `min` and `max`
   * compare: characters outside the Basic Multilingual Plane are two
   * UTF-16 code units.
   */
  function Utf16Length(s: string): nat
  {
    if s == [] then 0 else (if s[0] as int > 0xFFFF then 2 else 1) + Utf16Length(s[1..])
  }

  lemma {:induction false} Utf16LengthBounds(s: string)
    ensures |s| <= Utf16Length(s) <= 2 * |s|
  {
    if s != [] {
      Utf16LengthBounds(s[1..]);
    }
  }

  /** `z.string().min(lo).max(hi)` */
  predicate InBounds(s: string, lo: nat, hi: nat)
  {
    lo <= Utf16Length(s) <= hi
  }

  /** The string stored under `key`, if there is one and it is a string. */
  function StringAt(fields: map<string, Json>, key: string): Option<string>
  {
    if key in fields && fields[key].JString? then Some(fields[key].str) else None
  }

  // ---------------------------------------------------------------------
  // What each schema accepts, stated on the record it yields

  predicate ValidNewUser(u: NewUser, isUrl: string -> bool)
  {
    && InBounds(u.username, UsernameMin, UsernameMax)
    && InBounds(u.password, PasswordMin, PasswordMax)
    && InBounds(u.name, NameMin, NameMax)
    && (u.photo.Some? ==> isUrl(u.photo.value))
  }

  predicate ValidLogin(l: Login)
  {
    InBounds(l.username, UsernameMin, UsernameMax) && InBounds(l.password, PasswordMin, PasswordMax)
  }

  predicate ValidNewRoom(r: NewRoom)
  {
    InBounds(r.slug, SlugMin, SlugMax)
  }

  /** `body` is an object holding exactly `u`'s strings; `photo` is absent when `u` has none. */
  predicate CarriesNewUser(body: Json, u: NewUser)
  {
    && body.JObject?
    && "username" in body.fields && body.fields["username"] == JString(u.username)
    && "password" in body.fields && body.fields["password"] == JString(u.password)
    && "name" in body.fields && body.fields["name"] == JString(u.name)
    && (if u.photo.Some? then "photo" in body.fields && body.fields["photo"] == JString(u.photo.value)
        else "photo" !in body.fields)
  }

  predicate CarriesLogin(body: Json, l: Login)
  {
    && body.JObject?
    && "username" in body.fields && body.fields["username"] == JString(l.username)
    && "password" in body.fields && body.fields["password"] == JString(l.password)
  }

  predicate CarriesNewRoom(body: Json, r: NewRoom)
  {
    body.JObject? && "slug" in body.fields && body.fields["slug"] == JString(r.slug)
  }

  // ---------------------------------------------------------------------
  // The schemas' `safeParse`; keys other than the schema's are ignored

  /** `CreateUserSchema.safeParse`; `isUrl` stands for Zod's `z.url()` check. */
  function ParseCreateUser(body: Json, isUrl: string -> bool): (r: Option<NewUser>)
    ensures r.Some? ==> ValidNewUser(r.value, isUrl) && CarriesNewUser(body, r.value)
    ensures forall u :: ValidNewUser(u, isUrl) && CarriesNewUser(body, u) ==> r == Some(u)
  {
    if !body.JObject? then None
    else
      var f := body.fields;
      match (StringAt(f, "username"), StringAt(f, "password"), StringAt(f, "name"))
      case (Some(username), Some(password), Some(name)) =>
        if "photo" in f && !f["photo"].JString? then None
        else
          var u := NewUser(username, password, name, StringAt(f, "photo"));
          if ValidNewUser(u, isUrl) then Some(u) else None
      case _ => None
  }

  /** `LoginUserSchema.safeParse` */
  function ParseLogin(body: Json): (r: Option<Login>)
    ensures r.Some? ==> ValidLogin(r.value) && CarriesLogin(body, r.value)
    ensures forall l :: ValidLogin(l) && CarriesLogin(body, l) ==> r == Some(l)
  {
    if !body.JObject? then None
    else
      match (StringAt(body.fields, "username"), StringAt(body.fields, "password"))
      case (Some(username), Some(password)) =>
        if ValidLogin(Login(username, password)) then Some(Login(username, password)) else None
      case _ => None
  }

  /** `CreateRoomSchema.safeParse` */
  function ParseCreateRoom(body: Json): (r: Option<NewRoom>)
    ensures r.Some? ==> ValidNewRoom(r.value) && CarriesNewRoom(body, r.value)
    ensures forall n :: ValidNewRoom(n) && CarriesNewRoom(body, n) ==> r == Some(n)
  {
    if !body.JObject? then None
    else
      match StringAt(body.fields, "slug")
      case Some(slug) => if ValidNewRoom(NewRoom(slug)) then Some(NewRoom(slug)) else None
      case None => None
  }

  // ---------------------------------------------------------------------
  // Properties of the schemas

  /** A body that `CreateUserSchema` accepts is accepted by `LoginUserSchema`, with the same credentials. */
  lemma CreateUserBodyIsLoginBody(body: Json, isUrl: string -> bool)
    requires ParseCreateUser(body, isUrl).Some?
    ensures ParseLogin(body) == Some(Login(ParseCreateUser(body, isUrl).value.username,
                                           ParseCreateUser(body, isUrl).value.password))
  {
  }

  /** The body of a sign-up form: one object holding the three required strings and maybe a photo. */
  function SignupBody(u: NewUser): Json
  {
    var fields := map["username" := JString(u.username), "password" := JString(u.password), "name" := JString(u.name)];
    JObject(if u.photo.Some? then fields["photo" := JString(u.photo.value)] else fields)
  }

  /** Serializing a sign-up record and parsing it back gives the record exactly when it is valid. */
  lemma SignupBodyRoundTrip(u: NewUser, isUrl: string -> bool)
    ensures ParseCreateUser(SignupBody(u), isUrl) == (if ValidNewUser(u, isUrl) then Some(u) else None)
  {
  }

  /** A room body is accepted exactly when its slug is 1 to 50 code units long; an empty slug never is. */
  lemma RoomBodyBounds(slug: string)
    ensures ParseCreateRoom(JObject(map["slug" := JString(slug)])) == Some(NewRoom(slug))
            <==> SlugMin <= Utf16Length(slug) <= SlugMax
    ensures slug == [] ==> ParseCreateRoom(JObject(map["slug" := JString(slug)])).None?
  {
  }

  /** A create-user body missing a required field, or with a non-string photo, is always rejected. */
  lemma CreateUserRequiresFields(body: Json, isUrl: string -> bool)
    requires body.JObject?
    requires StringAt(body.fields, "username").None? || StringAt(body.fields, "password").None?
          || StringAt(body.fields, "name").None?
          || ("photo" in body.fields && !body.fields["photo"].JString?)
    ensures ParseCreateUser(body, isUrl).None?
  {
  }
}
