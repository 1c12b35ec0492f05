/** The `authenticate` middleware of server/middleware/authMiddleware.js: a
    case-sensitive test for the prefix "Bearer " (one space), the token taken
    as the second piece of splitting the header on single spaces, and a
    verification oracle standing for `jwt.verify` with the server's secret.
    The decision is either a 401 reply or "call next with req.user set". */
module AuthMiddleware {
  import opened Wrappers
  import opened Models
  import opened Strings

  /** The `user` claim that register and login sign into the token. */
  datatype Claims = Claims(id: Id, role: string)

  /** A verified token's payload; its `user` field may be absent. */
  datatype Payload = Payload(user: Option<Claims>)

  datatype Decision =
    | Deny(status: int, message: string)   // reply sent, next not called
    | Next(user: Option<Claims>)           // req.user assigned, next called once

  const BEARER := "Bearer "
  const NO_TOKEN := "No token, authorization denied"
  const INVALID_TOKEN := "Invalid token"

  /** A header that passes the prefix test splits into "Bearer" and the
      pieces of what follows the first space. */
  lemma BearerSplit(header: string)
    requires StartsWith(header, BEARER)
    ensures Split(header, ' ') == ["Bearer"] + Split(header[|BEARER|..], ' ')
  {
    assert header == "Bearer" + [' '] + header[|BEARER|..];
    SplitAfterPiece("Bearer", ' ', header[|BEARER|..]);
  }

  /** `authHeader.split(" ")[1]`. */
  function TokenOf(header: string): string
    requires StartsWith(header, BEARER)
  {
    BearerSplit(header);
    Split(header, ' ')[1]
  }

  /** The header a client sends: `Bearer ${token}`. */
  function BearerHeader(token: string): string {
    BEARER + token
  }

  function Authenticate(header: Option<string>, verify: string -> Option<Payload>): Decision {
    if header.None? || !StartsWith(header.value, BEARER) then Deny(401, NO_TOKEN)
    else match verify(TokenOf(header.value))
      case None => Deny(401, INVALID_TOKEN)
      case Some(payload) => Next(payload.user)
  }

  /** The token is the text after "Bearer " up to the next space, if any. */
  lemma {:induction false} TokenIsFirstWord(word: string, rest: Option<string>)
    requires ' ' !in word
    ensures var header := BEARER + word + (if rest.Some? then " " + rest.value else "");
      StartsWith(header, BEARER) && TokenOf(header) == word
  {
    var header := BEARER + word + (if rest.Some? then " " + rest.value else "");
    assert header[..|BEARER|] == BEARER;
    BearerSplit(header);
    var after := header[|BEARER|..];
    if rest.Some? {
      assert after == word + [' '] + rest.value;
      SplitAfterPiece(word, ' ', rest.value);
    } else {
      assert after == word;
      SplitWithoutSeparator(word, ' ');
    }
  }

  /** "Bearer a b" yields the token "a"; "Bearer  a" (two spaces) yields the
      empty token. */
  lemma TokenExamples()
    ensures StartsWith("Bearer a b", BEARER) && TokenOf("Bearer a b") == "a"
    ensures StartsWith("Bearer  a", BEARER) && TokenOf("Bearer  a") == ""
  {
    TwoWordsExample();
    DoubleSpaceExample();
  }

  lemma TwoWordsExample()
    ensures StartsWith("Bearer a b", BEARER) && TokenOf("Bearer a b") == "a"
  {
    TokenIsFirstWord("a", Some("b"));
    assert BEARER + "a" + " " + "b" == "Bearer a b";
  }

  lemma DoubleSpaceExample()
    ensures StartsWith("Bearer  a", BEARER) && TokenOf("Bearer  a") == ""
  {
    TokenIsFirstWord("", Some("a"));
    assert BEARER + "" + " " + "a" == "Bearer  a";
  }

  /** A header the client built from a token without spaces is read back as
      that token, and the decision is the verifier's on it. */
  lemma BearerRoundTrip(token: string, verify: string -> Option<Payload>)
    requires ' ' !in token
    ensures StartsWith(BearerHeader(token), BEARER)
    ensures TokenOf(BearerHeader(token)) == token
    ensures Authenticate(Some(BearerHeader(token)), verify)
              == if verify(token).Some? then Next(verify(token).value.user) else Deny(401, INVALID_TOKEN)
  {
    TokenIsFirstWord(token, None);
    assert BEARER + token + "" == BearerHeader(token);
  }

  /** Without an Authorization header, or with one whose scheme is not
      exactly "Bearer " (case and single space included), the reply is 401
      and next is not called. */
  lemma NoBearerDenied(header: Option<string>, verify: string -> Option<Payload>)
    requires header.None? || !StartsWith(header.value, BEARER)
    ensures Authenticate(header, verify) == Deny(401, NO_TOKEN)
  {
  }

  lemma SchemeIsCaseSensitive(verify: string -> Option<Payload>)
    ensures Authenticate(Some("bearer abc"), verify) == Deny(401, NO_TOKEN)
    ensures Authenticate(Some("Bearer"), verify) == Deny(401, NO_TOKEN)
  {
    assert "bearer abc"[..|BEARER|] != BEARER by {
      assert "bearer abc"[0] == 'b';
    }
  }

  /** next is called exactly when the header has the Bearer form and the
      token verifies; then req.user is the payload's `user` field. */
  lemma NextIffVerified(header: Option<string>, verify: string -> Option<Payload>)
    ensures Authenticate(header, verify).Next? <==>
      header.Some? && StartsWith(header.value, BEARER) && verify(TokenOf(header.value)).Some?
    ensures Authenticate(header, verify).Next? ==>
      Authenticate(header, verify).user == verify(TokenOf(header.value)).value.user
    ensures Authenticate(header, verify).Deny? ==> Authenticate(header, verify).status == 401
  {
  }
}
