/**
 * The `protectWithToken` middleware guarding the ETL trigger: a request
 * passes only when the second space-separated word of its `Authorization`
 * header equals the configured secret.
 */
module Auth {
  import opened Wrappers
  import opened Strings

  /** What the middleware does with a request: answer it, or call `next()`. */
  datatype Decision = Respond(status: int, message: string) | CallNext

  const MissingHeader := Respond(401, "Authorization header is missing")
  const InvalidToken := Respond(403, "Forbidden: Invalid token")

  /**
   * `header.split(" ")[1]`: undefined when the header has no second segment,
   * which happens exactly when it contains no space; a token never contains one.
   */
  function TokenOf(header: string): (t: Option<string>)
    ensures t.Some? <==> ' ' in header
    ensures t.Some? ==> ' ' !in t.value
  {
    SegmentCount(header);
    var parts := Split(header, ' ');
    if |parts| > 1 then Some(parts[1]) else None
  }

  /** A header splits into more than one segment exactly when it contains a space. */
  lemma SegmentCount(header: string)
    ensures |Split(header, ' ')| > 1 <==> ' ' in header
  {
    if ' ' in header {
      var i :| 0 <= i < |header| && header[i] == ' ';
      assert header == header[..i] + [' '] + header[i + 1..];
      SplitTwo(header[..i], header[i + 1..]);
    } else {
      SplitNoSeparator(header, ' ');
    }
  }

  /** The position of the first space. */
  function FirstSpace(h: string): (i: nat)
    requires ' ' in h
    ensures i < |h| && h[i] == ' ' && ' ' !in h[..i]
  {
    if h[0] == ' ' then 0
    else
      assert h == [h[0]] + h[1..];
      var j := FirstSpace(h[1..]);
      assert h[..j + 1] == [h[0]] + h[1..][..j];
      j + 1
  }

  /** The first segment of a split runs up to the first separator, or to the end. */
  lemma {:induction false} FirstSegmentShape(tail: string)
    ensures var w := Split(tail, ' ')[0];
            |w| <= |tail| && tail[..|w|] == w && (|w| == |tail| || tail[|w|] == ' ')
    decreases |tail|
  {
    if tail != [] && tail[0] != ' ' {
      FirstSegmentShape(tail[1..]);
      var w := Split(tail[1..], ' ')[0];
      assert Split(tail, ' ')[0] == [tail[0]] + w;
      assert tail == [tail[0]] + tail[1..];
    }
  }

  /**
   * The token is the second word: the characters after the first space, up
   * to the next space or the end of the header.
   */
  lemma {:induction false} TokenIsSecondWord(header: string)
    requires ' ' in header
    ensures var i := FirstSpace(header);
            var t := TokenOf(header).value;
            && i + 1 + |t| <= |header|
            && header[i + 1..i + 1 + |t|] == t
            && (i + 1 + |t| == |header| || header[i + 1 + |t|] == ' ')
  {
    var i := FirstSpace(header);
    var tail := header[i + 1..];
    assert header == header[..i] + [' '] + tail;
    SplitConcat(header[..i], ' ', tail);
    FirstSegmentShape(tail);
    var t := TokenOf(header).value;
    assert t == Split(tail, ' ')[0];
    assert header[i + 1..i + 1 + |t|] == tail[..|t|];
  }

  lemma SplitTwo(left: string, right: string)
    ensures |Split(left + [' '] + right, ' ')| > 1
  {
    if ' ' in left {
      var i :| 0 <= i < |left| && left[i] == ' ';
      assert left + [' '] + right == left[..i] + [' '] + (left[i + 1..] + [' '] + right);
      SplitTwo(left[..i], left[i + 1..] + [' '] + right);
    } else {
      SplitConcat(left, ' ', right);
    }
  }

  /**
   * The middleware as written. `header` is the `Authorization` header (absent
   * or a string) and `secret` is `SECRET_REFRESH_TOKEN` (unset or a string);
   * the comparison is JavaScript's `!==`, under which undefined equals undefined.
   */
  function ProtectWithTokenAsWritten(header: Option<string>, secret: Option<string>): (d: Decision)
    ensures d.CallNext? <==> header.Some? && header.value != "" && TokenOf(header.value) == secret
    ensures d.Respond? ==> d == MissingHeader || d == InvalidToken
  {
    if header.None? || header.value == "" then MissingHeader
    else if TokenOf(header.value) != secret then InvalidToken
    else CallNext
  }

  /** A request passes only when the configured secret is set and is the header's token. */
  function ProtectWithToken(header: Option<string>, secret: Option<string>): (d: Decision)
    ensures d.CallNext? <==> header.Some? && header.value != "" && secret.Some? && TokenOf(header.value) == secret
    ensures d.Respond? ==> d == MissingHeader || d == InvalidToken
  {
    if header.None? || header.value == "" then MissingHeader
    else if secret.None? || TokenOf(header.value) != secret then InvalidToken
    else CallNext
  }

  /** 401 exactly when the header is missing or empty; every other refusal is a 403. */
  lemma MissingHeaderIs401(header: Option<string>, secret: Option<string>)
    ensures ProtectWithToken(header, secret) == MissingHeader <==> (header.None? || header.value == "")
    ensures ProtectWithToken(header, secret).Respond? && !(header.None? || header.value == "") ==>
              ProtectWithToken(header, secret) == InvalidToken
  {
  }

  /**
   * `<scheme> <secret>` passes for any scheme without a space and any
   * trailing words: the scheme is never checked and extra words are ignored.
   */
  lemma BearerPasses(scheme: string, token: string, rest: string)
    requires ' ' !in scheme && ' ' !in token
    ensures ProtectWithToken(Some(scheme + " " + token + rest), Some(token)) == CallNext
            <==> (rest == [] || rest[0] == ' ')
  {
    var header := scheme + " " + token + rest;
    assert header == scheme + [' '] + (token + rest);
    SplitConcat(scheme, ' ', token + rest);
    assert Split(header, ' ')[1] == Split(token + rest, ' ')[0];
    if rest == [] {
      assert token + rest == token;
      SplitNoSeparator(token, ' ');
    } else if rest[0] == ' ' {
      assert token + rest == token + [' '] + rest[1..];
      SplitConcat(token, ' ', rest[1..]);
    } else {
      SplitFirstSegment(token, rest);
    }
  }

  /** A word followed by anything not starting with a space is not a whole segment. */
  lemma {:induction false} SplitFirstSegment(token: string, rest: string)
    requires ' ' !in token && rest != [] && rest[0] != ' '
    ensures Split(token + rest, ' ')[0] != token
  {
    LeadingSegment(token, rest);
  }

  lemma {:induction false} LeadingSegment(token: string, rest: string)
    requires ' ' !in token
    ensures Split(token + rest, ' ')[0] == token + Split(rest, ' ')[0]
  {
    if token != [] {
      assert (token + rest)[1..] == token[1..] + rest;
      LeadingSegment(token[1..], rest);
      assert token == [token[0]] + token[1..];
    } else {
      assert token + rest == rest;
    }
  }

  /** A header with no space carries no token, so it is refused whenever a secret is set. */
  lemma NoSpaceRefused(header: string, secret: string)
    requires header != "" && ' ' !in header
    ensures ProtectWithToken(Some(header), Some(secret)) == InvalidToken
  {
  }

  /** The corrected middleware agrees with the one as written whenever a secret is configured. */
  lemma ConfiguredAgrees(header: Option<string>, secret: string)
    ensures ProtectWithToken(header, Some(secret)) == ProtectWithTokenAsWritten(header, Some(secret))
  {
  }

  /** As written, with no secret configured any non-empty header without a space passes. */
  lemma UnsetSecretAdmitsAnyWord()
    ensures ProtectWithTokenAsWritten(Some("x"), None) == CallNext
    ensures ProtectWithToken(Some("x"), None) == InvalidToken
  {
    assert ' ' !in "x";
  }
}
