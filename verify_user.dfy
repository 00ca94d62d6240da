/**
 * The `verifyToken` middleware: demand an `Authorization: Bearer <token>` header, hand the
 * token to the JWT verifier, and either reject the request or attach the decoded user.
 * The verifier itself (signature, secret, expiry) is a parameter: any function from token to verdict.
 */
module VerifyUser {
  import opened NewsTypes

  const BearerPrefix: string := "Bearer "

  /** `new ApiError(message, statusCode)`. */
  datatype ApiError = ApiError(message: string, statusCode: int)

  const Unauthorized: ApiError := ApiError("Unauthorized", 401)
  const Forbidden: ApiError := ApiError("Forbidden", 403)

  /** The parts of an Express request the middleware reads and writes. */
  datatype Request<U> = Request(authorization: JsValue, user: Option<U>)

  /** What the verifier's callback receives: an error, or the decoded payload. */
  datatype Verdict<U> = Rejected | Accepted(payload: U)

  /** The guard `authHeader && authHeader.startsWith("Bearer ")` (case-sensitive, space included). */
  predicate HasBearerHeader(h: JsValue)
  {
    Truthy(h) && BearerPrefix <= h.s
  }

  /** The index of the first space in `s`. */
  function FirstSpace(s: string): (i: nat)
    requires ' ' in s
    ensures i < |s| && s[i] == ' '
    ensures forall k :: 0 <= k < i ==> s[k] != ' '
  {
    if s[0] == ' ' then 0 else 1 + FirstSpace(s[1..])
  }

  /** `s.split(" ")`: the maximal runs between single spaces, empty runs included. */
  function Split(s: string): (fields: seq<string>)
    ensures |fields| >= 1
    decreases |s|
  {
    if ' ' in s then
      var i := FirstSpace(s);
      [s[..i]] + Split(s[i + 1..])
    else [s]
  }

  /** `fields.join(" ")`. */
  function Join(fields: seq<string>): string
    requires |fields| >= 1
  {
    if |fields| == 1 then fields[0] else fields[0] + " " + Join(fields[1..])
  }

  /** `authHeader.split(" ")[1]` for a header that passed the prefix test. */
  function ExtractToken(header: string): string
    requires BearerPrefix <= header
  {
    BearerFields(header);
    Split(header)[1]
  }

  /** A word followed by a space splits off as the first field. */
  lemma {:induction false} SplitAfterWord(word: string, rest: string)
    requires ' ' !in word
    ensures Split(word + " " + rest) == [word] + Split(rest)
  {
    var s := word + " " + rest;
    assert s[|word|] == ' ';
    var i := FirstSpace(s);
    assert i == |word|;
    assert s[..i] == word && s[i + 1..] == rest;
  }

  /** A header starting with `"Bearer "` splits into `"Bearer"` followed by the fields of the rest. */
  lemma {:induction false} BearerFields(header: string)
    requires BearerPrefix <= header
    ensures Split(header) == ["Bearer"] + Split(header[|BearerPrefix|..])
  {
    assert header == "Bearer" + " " + header[|BearerPrefix|..];
    SplitAfterWord("Bearer", header[|BearerPrefix|..]);
  }

  /** Joining the fields of a split gives the string back. */
  lemma {:induction false} JoinSplit(s: string)
    ensures Join(Split(s)) == s
    decreases |s|
  {
    if ' ' in s {
      var i := FirstSpace(s);
      var fields := Split(s);
      var tail := Split(s[i + 1..]);
      assert fields == [s[..i]] + tail;
      assert |fields| > 1 && fields[0] == s[..i] && fields[1..] == tail;
      assert Join(fields) == s[..i] + " " + Join(tail);
      JoinSplit(s[i + 1..]);
      assert s == s[..i] + " " + s[i + 1..];
    }
  }

  /** Splitting the join of space-free fields gives the fields back. */
  lemma {:induction false} SplitJoin(fields: seq<string>)
    requires |fields| >= 1
    requires forall k :: 0 <= k < |fields| ==> ' ' !in fields[k]
    ensures Split(Join(fields)) == fields
    decreases |fields|
  {
    if |fields| > 1 {
      var s := Join(fields);
      var head := fields[0];
      var rest := Join(fields[1..]);
      assert s == head + " " + rest;
      assert s[|head|] == ' ';
      var i := FirstSpace(s);
      assert i == |head|;
      assert s[..i] == head;
      assert s[i + 1..] == rest;
      SplitJoin(fields[1..]);
    }
  }

  /** No field of a split contains a space. */
  lemma {:induction false} SplitFieldsHaveNoSpace(s: string)
    ensures forall k :: 0 <= k < |Split(s)| ==> ' ' !in Split(s)[k]
    decreases |s|
  {
    if ' ' in s {
      var i := FirstSpace(s);
      SplitFieldsHaveNoSpace(s[i + 1..]);
      var fields := Split(s);
      assert fields == [s[..i]] + Split(s[i + 1..]);
      forall k | 0 <= k < |fields| ensures ' ' !in fields[k] {
        if k == 0 {
          assert forall m :: 0 <= m < i ==> s[..i][m] != ' ';
        } else {
          assert fields[k] == Split(s[i + 1..])[k - 1];
        }
      }
    }
  }

  /**
   * The token is the first word after `"Bearer "`: a prefix of the rest of the header that
   * holds no space and ends at a space or at the end of the header.
   */
  lemma {:induction false} TokenIsFirstWord(header: string)
    requires BearerPrefix <= header
    ensures var token, rest := ExtractToken(header), header[|BearerPrefix|..];
      token <= rest && ' ' !in token && (|token| == |rest| || rest[|token|] == ' ')
  {
    BearerFields(header);
    var rest := header[|BearerPrefix|..];
    SplitFieldsHaveNoSpace(rest);
    if ' ' in rest {
      var i := FirstSpace(rest);
      assert Split(rest)[0] == rest[..i];
    }
  }

  /** `"Bearer abc"` gives `"abc"`, `"Bearer abc def"` gives `"abc"`, and `"Bearer "` gives `""`. */
  lemma {:induction false} TokenExamples()
    ensures ExtractToken("Bearer abc") == "abc"
    ensures ExtractToken("Bearer abc def") == "abc"
    ensures ExtractToken("Bearer ") == ""
  {
    SingleWordToken();
    TwoWordToken();
    EmptyToken();
  }

  lemma {:induction false} SingleWordToken()
    ensures ExtractToken("Bearer abc") == "abc"
  {
    BearerFields("Bearer abc");
    assert "Bearer abc"[7..] == "abc";
  }

  lemma {:induction false} TwoWordToken()
    ensures ExtractToken("Bearer abc def") == "abc"
  {
    FirstOfTwoWords("abc", "def");
    assert BearerPrefix + "abc" + " " + "def" == "Bearer abc def";
  }

  /** With a space-free first word, whatever follows the next space is not part of the token. */
  lemma {:induction false} FirstOfTwoWords(word: string, more: string)
    requires ' ' !in word
    ensures ExtractToken(BearerPrefix + word + " " + more) == word
  {
    var h := BearerPrefix + word + " " + more;
    BearerFields(h);
    assert h[|BearerPrefix|..] == word + " " + more;
    SplitAfterWord(word, more);
  }

  lemma {:induction false} EmptyToken()
    ensures ExtractToken("Bearer ") == ""
  {
    TokenIsFirstWord("Bearer ");
    assert "Bearer "[7..] == "";
  }

  /**
   * `verifyToken(req, res, next)`: `next` is the error passed to the `next` callback (`None`
   * for a plain `next()`), `req'` the request afterwards.
   */
  method VerifyToken<U>(req: Request<U>, verify: string -> Verdict<U>) returns (next: Option<ApiError>, req': Request<U>)
    ensures next == Some(Unauthorized) <==> !HasBearerHeader(req.authorization)
    ensures !HasBearerHeader(req.authorization) ==> req' == req
    ensures HasBearerHeader(req.authorization) ==>
      var verdict := verify(ExtractToken(req.authorization.s));
      && (next == Some(Forbidden) <==> verdict.Rejected?)
      && (next == None <==> verdict.Accepted?)
      && (verdict.Rejected? ==> req' == req)
      && (verdict.Accepted? ==> req' == req.(user := Some(verdict.payload)))
  {
    var authHeader := req.authorization;
    if !Truthy(authHeader) || !(BearerPrefix <= authHeader.s) {
      return Some(Unauthorized), req;
    }
    var token := ExtractToken(authHeader.s);
    match verify(token)
    case Rejected =>
      return Some(Forbidden), req;
    case Accepted(user) =>
      return None, req.(user := Some(user));
  }
}
