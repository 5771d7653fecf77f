/**
 * The WebSocket server's `connection` handler. A new connection carries
 * its credential as the `token` query parameter of the request URL. A
 * missing or empty token, or one that does not verify, gets one JSON
 * error message and a close with code 1008; a verified token attaches
 * the user's id and name to the connection, which from then on answers
 * every message with `"pong"`.
 */
module WsServer {
  import opened Wrappers
  import opened Identity

  const DefaultSecret := "secret_key_draw_app"
  /** Close code 1008, "policy violation", of the WebSocket protocol. */
  const PolicyViolation := 1008
  const NoTokenReason := "No token provided"
  const InvalidTokenReason := "Invalid token"
  /** `JSON.stringify({ error: "No token provided" })` */
  const NoTokenNotice := "{\"error\":\"No token provided\"}"
  /** `JSON.stringify({ error: "Invalid or expired token" })` */
  const InvalidTokenNotice := "{\"error\":\"Invalid or expired token\"}"
  const Pong := "pong"

  /** `process.env.JWT_SECRET || "secret_key_draw_app"`: an unset or empty variable falls back. */
  function ServerSecret(env: Option<string>): (secret: string)
    ensures secret != ""
    ensures env.Some? && env.value != "" ==> secret == env.value
    ensures env.None? || env.value == "" ==> secret == DefaultSecret
  {
    if env.None? || env.value == "" then DefaultSecret else env.value
  }

  // ---------------------------------------------------------------------
  // Strings: `split` and the query string

  /** The position of the first `c` in `s`, or `|s|` when there is none. */
  function IndexOf(s: string, c: char): (i: nat)
    ensures i <= |s|
    ensures forall k :: 0 <= k < i ==> s[k] != c
    ensures i < |s| ==> s[i] == c
  {
    if s == [] then 0
    else if s[0] == c then 0
    else 1 + IndexOf(s[1..], c)
  }

  /** JavaScript's `s.split(sep)` for a one-character separator. */
  function Split(s: string, sep: char): (parts: seq<string>)
    ensures |parts| >= 1
    ensures forall k :: 0 <= k < |parts| ==> sep !in parts[k]
    ensures parts[0] <= s && (|parts[0]| < |s| ==> s[|parts[0]|] == sep)
    decreases |s|
  {
    var i := IndexOf(s, sep);
    if i == |s| then
      assert s[..i] == s;
      [s]
    else [s[..i]] + Split(s[i + 1..], sep)
  }

  /** `split` only cuts: a character absent from the string is absent from every piece. */
  lemma {:induction false} SplitKeepsOut(s: string, sep: char, c: char)
    requires c !in s
    ensures forall k :: 0 <= k < |Split(s, sep)| ==> c !in Split(s, sep)[k]
    decreases |s|
  {
    var i := IndexOf(s, sep);
    if i < |s| {
      assert c !in s[..i] && c !in s[i + 1..];
      SplitKeepsOut(s[i + 1..], sep, c);
      assert Split(s, sep) == [s[..i]] + Split(s[i + 1..], sep);
    } else {
      assert s[..i] == s;
    }
  }

  /** `parts.join(sep)` */
  function Join(parts: seq<string>, sep: char): string
    requires |parts| >= 1
  {
    if |parts| == 1 then parts[0] else parts[0] + [sep] + Join(parts[1..], sep)
  }

  /** Splitting loses nothing: joining the pieces again gives back the string. */
  lemma {:induction false} JoinSplit(s: string, sep: char)
    ensures Join(Split(s, sep), sep) == s
    decreases |s|
  {
    var i := IndexOf(s, sep);
    if i < |s| {
      var parts := Split(s, sep);
      var later := Split(s[i + 1..], sep);
      assert parts == [s[..i]] + later;
      assert parts[1..] == later;
      JoinSplit(s[i + 1..], sep);
      assert Join(parts, sep) == s[..i] + [sep] + Join(later, sep);
      assert s == s[..i] + [sep] + s[i + 1..];
    } else {
      assert s[..i] == s;
    }
  }

  lemma {:induction false} SplitWithoutSeparator(s: string, sep: char)
    requires sep !in s
    ensures Split(s, sep) == [s]
  {
  }

  lemma {:induction false} SplitAtFirst(a: string, sep: char, b: string)
    requires sep !in a
    ensures Split(a + [sep] + b, sep) == [a] + Split(b, sep)
  {
    var s := a + [sep] + b;
    IndexAfterPrefix(a, sep, b);
    assert s[..|a|] == a;
    assert s[|a| + 1..] == b;
  }

  lemma {:induction false} IndexAfterPrefix(a: string, c: char, b: string)
    requires c !in a
    ensures IndexOf(a + [c] + b, c) == |a|
  {
    var s := a + [c] + b;
    assert s[|a|] == c;
    assert forall k :: 0 <= k < |a| ==> s[k] == a[k];
  }

  /** One `name=value` pair of a query string; a piece without `=` has an empty value. */
  datatype Param = Param(name: string, value: string)

  function ParseParam(piece: string): Param
  {
    var i := IndexOf(piece, '=');
    if i == |piece| then Param(piece, "") else Param(piece[..i], piece[i + 1..])
  }

  /** A piece is cut at its first `=`: the name holds no `=`, and without one the value is empty. */
  lemma ParseParamCutsAtFirstEquals(piece: string)
    ensures '=' !in ParseParam(piece).name
    ensures if '=' in piece then piece == ParseParam(piece).name + ['='] + ParseParam(piece).value
            else ParseParam(piece) == Param(piece, "")
  {
    var i := IndexOf(piece, '=');
    if i < |piece| {
      assert piece == piece[..i] + ['='] + piece[i + 1..];
    } else {
      assert piece[..i] == piece;
    }
  }

  /** The pairs of the pieces between `&`s, skipping empty pieces. */
  function ParsePieces(pieces: seq<string>): (params: seq<Param>)
    ensures |params| <= |pieces|
  {
    if pieces == [] then []
    else if pieces[0] == "" then ParsePieces(pieces[1..])
    else [ParseParam(pieces[0])] + ParsePieces(pieces[1..])
  }

  /** Every pair comes from a non-empty piece; with no empty piece, there is one pair per piece, in order. */
  lemma {:induction false} ParsePiecesOrigin(pieces: seq<string>)
    ensures forall p :: p in ParsePieces(pieces) ==>
              exists piece :: piece in pieces && piece != "" && p == ParseParam(piece)
    ensures (forall j :: 0 <= j < |pieces| ==> pieces[j] != "") ==>
              |ParsePieces(pieces)| == |pieces|
              && forall k :: 0 <= k < |pieces| ==> ParsePieces(pieces)[k] == ParseParam(pieces[k])
  {
    if pieces != [] {
      ParsePiecesOrigin(pieces[1..]);
      forall p | p in ParsePieces(pieces[1..])
        ensures exists piece :: piece in pieces && piece != "" && p == ParseParam(piece)
      {
        var piece :| piece in pieces[1..] && piece != "" && p == ParseParam(piece);
        assert piece in pieces;
      }
    }
  }

  /** One piece gives its pair, or nothing when it is empty. */
  lemma ParsePiecesOne(piece: string)
    ensures ParsePieces([piece]) == if piece == "" then [] else [ParseParam(piece)]
  {
    assert [piece][1..] == [];
  }

  /** Parsing works piece by piece: the pairs of `a + b` are those of `a` followed by those of `b`. */
  lemma {:induction false} ParsePiecesAppend(a: seq<string>, b: seq<string>)
    ensures ParsePieces(a + b) == ParsePieces(a) + ParsePieces(b)
  {
    if a != [] {
      assert (a + b)[0] == a[0];
      assert (a + b)[1..] == a[1..] + b;
      ParsePiecesAppend(a[1..], b);
    } else {
      assert a + b == b;
    }
  }

  /** `new URLSearchParams(q)` */
  function ParseQuery(q: string): (params: seq<Param>)
    ensures q == "" ==> params == []
  {
    ParsePieces(Split(q, '&'))
  }

  /** A character absent from the query is absent from every name and value parsed out of it. */
  lemma ParseQueryKeepsOut(q: string, c: char)
    requires c !in q
    ensures forall p :: p in ParseQuery(q) ==> c !in p.name && c !in p.value
  {
    var pieces := Split(q, '&');
    SplitKeepsOut(q, '&', c);
    ParsePiecesOrigin(pieces);
    forall p | p in ParseQuery(q) ensures c !in p.name && c !in p.value {
      var piece :| piece in pieces && piece != "" && p == ParseParam(piece);
      ParseParamCutsAtFirstEquals(piece);
    }
  }

  /** No name or value parsed out of a query holds the `&` that separates the pairs. */
  lemma ParseQueryCutsAtAmpersands(q: string)
    ensures forall p :: p in ParseQuery(q) ==> '&' !in p.name && '&' !in p.value
  {
    var pieces := Split(q, '&');
    ParsePiecesOrigin(pieces);
    forall p | p in ParseQuery(q) ensures '&' !in p.name && '&' !in p.value {
      var piece :| piece in pieces && piece != "" && p == ParseParam(piece);
      ParseParamCutsAtFirstEquals(piece);
    }
  }

  /** `params.get(name)`: the value of the first pair with that name. */
  function Get(params: seq<Param>, name: string): (v: Option<string>)
    ensures v.Some? ==> Param(name, v.value) in params
    ensures v.None? <==> forall k :: 0 <= k < |params| ==> params[k].name != name
  {
    if params == [] then None
    else if params[0].name == name then Some(params[0].value)
    else Get(params[1..], name)
  }

  /** When a name occurs several times, `get` answers with its first occurrence. */
  lemma {:induction false} GetFindsFirst(params: seq<Param>, name: string, k: nat)
    requires k < |params| && params[k].name == name
    requires forall j :: 0 <= j < k ==> params[j].name != name
    ensures Get(params, name) == Some(params[k].value)
  {
    if k > 0 {
      assert params[0].name != name;
      forall j | 0 <= j < k - 1 ensures params[1..][j].name != name {
        assert params[1..][j] == params[j + 1];
      }
      GetFindsFirst(params[1..], name, k - 1);
    }
  }

  /** `url ? url.split("?")[1] : ""`: the text between the first and second `?`, if any. */
  function QueryOf(url: Option<string>): (q: string)
    ensures '?' !in q
  {
    if url.None? || url.value == "" then ""
    else
      var parts := Split(url.value, '?');
      if |parts| > 1 then parts[1] else ""
  }

  /** With a `?` in the URL, the query is the text after the first `?` up to the next one, or to the end. */
  lemma QueryOfAfterFirstMark(url: Option<string>)
    requires url.Some? && '?' in url.value
    ensures var after := url.value[IndexOf(url.value, '?') + 1..];
            QueryOf(url) <= after && (|QueryOf(url)| < |after| ==> after[|QueryOf(url)|] == '?')
  {
    var u := url.value;
    var i := IndexOf(u, '?');
    assert Split(u, '?') == [u[..i]] + Split(u[i + 1..], '?');
    assert QueryOf(url) == Split(u[i + 1..], '?')[0];
  }

  /** The `token` query parameter of the request URL. */
  function QueryToken(url: Option<string>): (t: Option<string>)
    ensures t.Some? ==> '?' !in t.value && '&' !in t.value
    ensures url.None? ==> t.None?
  {
    ParseQueryKeepsOut(QueryOf(url), '?');
    ParseQueryCutsAtAmpersands(QueryOf(url));
    Get(ParseQuery(QueryOf(url)), "token")
  }

  /** An undefined URL, or one with no `?`, carries no token. */
  lemma {:induction false} NoQueryNoToken(url: Option<string>)
    requires url.None? || '?' !in url.value
    ensures QueryToken(url).None?
  {
    if url.Some? && url.value != "" {
      SplitWithoutSeparator(url.value, '?');
    }
    assert QueryOf(url) == "";
    assert Split("", '&') == [""];
  }

  /** The query of `path?q` is `q` when neither part holds a `?`. */
  lemma {:induction false} QueryOfPathAndQuery(path: string, q: string)
    requires '?' !in path && '?' !in q
    ensures QueryOf(Some(path + ['?'] + q)) == q
  {
    SplitAtFirst(path, '?', q);
    SplitWithoutSeparator(q, '?');
  }

  /** The query `name=v` holds the one pair `(name, v)` when the name has no `=` and `v` no `&`. */
  lemma {:induction false} ParseSinglePair(name: string, v: string)
    requires name != [] && '=' !in name && '&' !in name && '&' !in v
    ensures ParseQuery(name + ['='] + v) == [Param(name, v)]
  {
    var q := name + ['='] + v;
    assert '&' !in q;
    SplitWithoutSeparator(q, '&');
    IndexAfterPrefix(name, '=', v);
    assert q[..|name|] == name && q[|name| + 1..] == v;
    assert ParseParam(q) == Param(name, v);
    assert ParsePieces([q]) == [ParseParam(q)] + ParsePieces([]);
  }

  /** The URL `path?token=t` carries the token `t` when neither part holds a separator. */
  lemma {:induction false} QueryTokenRoundTrip(path: string, t: string)
    requires '?' !in path && '?' !in t && '&' !in t
    ensures QueryToken(Some(path + "?token=" + t)) == Some(t)
  {
    var q := "token" + ['='] + t;
    assert path + "?token=" + t == path + ['?'] + q;
    QueryOfPathAndQuery(path, q);
    ParseSinglePair("token", t);
    assert QueryOf(Some(path + "?token=" + t)) == q;
    assert Get([Param("token", t)], "token") == Some(t);
  }

  // ---------------------------------------------------------------------
  // The admission decision

  /** How the handler leaves a new connection: refused with a notice and a close reason, or admitted. */
  datatype Admission = Refused(notice: string, reason: string) | Admitted(user: Claims)

  function Admit(url: Option<string>, secret: string, verify: Verifier): (a: Admission)
    ensures a.Admitted? ==> QueryToken(url).Some? && QueryToken(url).value != ""
                            && verify(secret, QueryToken(url).value) == Some(a.user)
    ensures a.Refused? ==> (a == Refused(NoTokenNotice, NoTokenReason)
                            || a == Refused(InvalidTokenNotice, InvalidTokenReason))
    ensures a.Refused? ==> (a.reason == NoTokenReason <==> QueryToken(url).None? || QueryToken(url) == Some(""))
    ensures a.Admitted? <==> (QueryToken(url).Some? && QueryToken(url).value != ""
                              && verify(secret, QueryToken(url).value).Some?)
  {
    match QueryToken(url)
    case None => Refused(NoTokenNotice, NoTokenReason)
    case Some(token) =>
      if token == "" then Refused(NoTokenNotice, NoTokenReason)
      else
        match verify(secret, token)
        case None => Refused(InvalidTokenNotice, InvalidTokenReason)
        case Some(claims) => Admitted(claims)
  }

  /** Without a `?` in the URL the connection is refused as carrying no token, whatever the verifier. */
  lemma AdmitWithoutQuery(url: Option<string>, secret: string, verify: Verifier)
    requires url.None? || '?' !in url.value
    ensures Admit(url, secret, verify) == Refused(NoTokenNotice, NoTokenReason)
  {
    NoQueryNoToken(url);
  }

  /** For `path?token=t`: an empty `t` is no token; otherwise the verifier alone decides. */
  lemma AdmitByToken(path: string, t: string, secret: string, verify: Verifier)
    requires '?' !in path && '?' !in t && '&' !in t
    ensures Admit(Some(path + "?token=" + t), secret, verify)
            == if t == "" then Refused(NoTokenNotice, NoTokenReason)
               else match verify(secret, t)
                 case None => Refused(InvalidTokenNotice, InvalidTokenReason)
                 case Some(c) => Admitted(c)
  {
    QueryTokenRoundTrip(path, t);
  }

  // ---------------------------------------------------------------------
  // One connection

  datatype Phase = Connecting | Authenticated | Closed

  /**
   * An `AuthenticatedWebSocket`: its phase, the user fields the handler
   * attaches, whether a message listener is installed, the close code and
   * reason sent by the server, and everything sent to the client.
   */
  class Connection {
    var phase: Phase
    var userId: Option<nat>
    var username: Option<string>
    var listening: bool
    var closeCode: Option<int>
    var closeReason: Option<string>
    var outbox: seq<string>

    ghost predicate Valid()
      reads this
    {
      && (phase == Connecting ==>
            userId.None? && !listening && closeCode.None? && outbox == [])
      && (phase == Authenticated ==> listening && closeCode.None?)
      && (userId.Some? <==> username.Some?)
      && (listening <==> userId.Some?)
      && (closeCode.Some? <==> closeReason.Some?)
      && (closeCode.Some? ==> phase == Closed && closeCode == Some(PolicyViolation) && !listening)
    }

    constructor ()
      ensures Valid() && phase == Connecting && outbox == []
      ensures userId.None? && username.None? && closeCode.None?
    {
      phase := Connecting;
      userId, username := None, None;
      listening := false;
      closeCode, closeReason := None, None;
      outbox := [];
    }

    /** The `connection` handler, given the request URL, the `JWT_SECRET` variable and the verifier. */
    method OnConnection(url: Option<string>, env: Option<string>, verify: Verifier)
      requires Valid() && phase == Connecting
      modifies this
      ensures Valid()
      ensures match Admit(url, ServerSecret(env), verify)
        case Refused(notice, reason) =>
          && phase == Closed && closeCode == Some(PolicyViolation) && closeReason == Some(reason)
          && outbox == [notice] && userId.None? && username.None? && !listening
        case Admitted(user) =>
          && phase == Authenticated && userId == Some(user.id) && username == Some(user.username)
          && listening && outbox == [] && closeCode.None?
    {
      var secret := ServerSecret(env);
      var token := QueryToken(url);
      if token.None? || token.value == "" {
        outbox := outbox + [NoTokenNotice];
        phase, closeCode, closeReason := Closed, Some(PolicyViolation), Some(NoTokenReason);
        return;
      }
      var decoded := verify(secret, token.value);
      if decoded.None? {
        outbox := outbox + [InvalidTokenNotice];
        phase, closeCode, closeReason := Closed, Some(PolicyViolation), Some(InvalidTokenReason);
        return;
      }
      userId, username := Some(decoded.value.id), Some(decoded.value.username);
      listening := true;
      phase := Authenticated;
    }

    /** An inbound message: one `"pong"` while authenticated, whatever the payload. */
    method OnMessage(message: string)
      requires Valid()
      modifies this`outbox
      ensures Valid()
      ensures outbox == if phase == Authenticated then old(outbox) + [Pong] else old(outbox)
    {
      if phase == Authenticated {
        outbox := outbox + [Pong];
      }
    }

    /** The transport closes; the `close` listener only logs, so only the phase changes. */
    method OnClose()
      requires Valid() && phase != Connecting
      modifies this`phase
      ensures Valid() && phase == Closed
    {
      phase := Closed;
    }
  }
}
