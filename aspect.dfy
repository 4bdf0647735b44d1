/** AuditAspect's helpers: the client address, user agent and user id that
    every audit entry carries, and the test that flags a failure as a
    security violation. The current request and the current authentication
    are parameters. */
module AuditAspectHelpers {
  import opened Wrappers
  import opened Text
  import opened Exceptions

  /** The servlet request, as the headers it carries (by exact name) and the
      remote address. */
  datatype HttpRequest = HttpRequest(headers: map<string, string>, remoteAddr: string)

  function Header(r: HttpRequest, name: string): Option<string> {
    if name in r.headers then Some(r.headers[name]) else None
  }

  // ---------------------------------------------------------------------------
  // String.split(",")
  // ---------------------------------------------------------------------------

  /** Every comma-separated field, empty ones included. */
  function SplitComma(s: string): (parts: seq<string>)
    ensures |parts| >= 1
  {
    if s == [] then [""]
    else if s[0] == ',' then [""] + SplitComma(s[1..])
    else var rest := SplitComma(s[1..]); [[s[0]] + rest[0]] + rest[1..]
  }

  /** The fields with the trailing empty ones removed. */
  function DropTrailingEmpty(parts: seq<string>): (r: seq<string>)
    ensures |r| <= |parts| && r == parts[..|r|]
    ensures r == [] || r[|r| - 1] != ""
    ensures forall i :: |r| <= i < |parts| ==> parts[i] == ""
  {
    if parts == [] then []
    else if parts[|parts| - 1] == "" then DropTrailingEmpty(parts[..|parts| - 1])
    else parts
  }

  /** String.split(",") with limit 0: a string without a comma comes back
      whole, otherwise the fields without the trailing empty ones. */
  function JavaSplit(s: string): (r: seq<string>)
    ensures ',' !in s ==> r == [s]
    ensures ',' in s ==> r == [] || r[|r| - 1] != ""
  {
    if ',' !in s then [s] else DropTrailingEmpty(SplitComma(s))
  }

  /** The text before the first comma. */
  function FirstField(s: string): (r: string)
    ensures |r| <= |s| && r == s[..|r|] && ',' !in r
    ensures |r| < |s| ==> s[|r|] == ','
  {
    if s == [] || s[0] == ',' then [] else [s[0]] + FirstField(s[1..])
  }

  predicate OnlyCommas(s: string) {
    forall i | 0 <= i < |s| :: s[i] == ','
  }

  lemma {:induction false} SplitCommaFirst(s: string)
    ensures SplitComma(s)[0] == FirstField(s)
  {
    if s != [] && s[0] != ',' {
      SplitCommaFirst(s[1..]);
    }
  }

  /** Some field is non-empty iff some character is not a comma. */
  lemma {:induction false} SplitCommaHasText(s: string)
    ensures (exists j | 0 <= j < |SplitComma(s)| :: SplitComma(s)[j] != "") <==> !OnlyCommas(s)
  {
    if s == [] {
    } else {
      SplitCommaHasText(s[1..]);
      var rest := SplitComma(s[1..]);
      if s[0] == ',' {
        assert SplitComma(s)[1..] == rest;
        if !OnlyCommas(s[1..]) {
          var j :| 0 <= j < |rest| && rest[j] != "";
          assert SplitComma(s)[j + 1] != "";
        }
        if !OnlyCommas(s) {
          var i :| 0 <= i < |s| && s[i] != ',';
          assert s[1..][i - 1] != ',';
        }
      } else {
        assert SplitComma(s)[0] != "";
        assert !OnlyCommas(s) by { assert s[0] != ','; }
      }
    }
  }

  /** Dropping the trailing empty fields leaves nothing iff every field is
      empty. */
  lemma {:induction false} DropTrailingEmptyEmpty(parts: seq<string>)
    ensures DropTrailingEmpty(parts) == [] <==> forall j | 0 <= j < |parts| :: parts[j] == ""
  {
    if parts != [] && parts[|parts| - 1] == "" {
      var init := parts[..|parts| - 1];
      DropTrailingEmptyEmpty(init);
      assert forall j | 0 <= j < |init| :: init[j] == parts[j];
    }
  }

  /** A non-empty string made only of commas splits to nothing; any other
      string with a comma splits with the text before the first comma first. */
  lemma JavaSplitSpec(s: string)
    requires s != ""
    ensures JavaSplit(s) == [] <==> OnlyCommas(s)
    ensures !OnlyCommas(s) ==> |JavaSplit(s)| >= 1 && JavaSplit(s)[0] == FirstField(s)
  {
    if ',' !in s {
      assert FirstField(s) == s[..|FirstField(s)|];
      assert !OnlyCommas(s) by { assert s[0] != ','; }
    } else {
      DropTrailingEmptyEmpty(SplitComma(s));
      SplitCommaHasText(s);
      SplitCommaFirst(s);
    }
  }

  // ---------------------------------------------------------------------------
  // Helpers
  // ---------------------------------------------------------------------------

  const Unknown: string := "unknown"

  /** getClientIP: X-Forwarded-For first (its first field, trimmed), then
      X-Real-IP, then the remote address. Indexing the split of a header made
      only of commas throws. */
  function ClientIp(request: Option<HttpRequest>): (ip: Result<string, Exception>)
    ensures request.None? ==> ip == Success(Unknown)
    ensures ip.Failure? ==>
      && request.Some? && Header(request.value, "X-Forwarded-For").Some?
      && ip.error.Unhandled? && ip.error.kind == ArrayIndexOutOfBounds
  {
    match request
    case None => Success(Unknown)
    case Some(r) =>
      var forwarded := Header(r, "X-Forwarded-For");
      if forwarded.Some? && forwarded.value != "" then
        var fields := JavaSplit(forwarded.value);
        if |fields| == 0 then
          Failure(Unhandled(ArrayIndexOutOfBounds, Some("Index 0 out of bounds for length 0")))
        else Success(Trim(fields[0]))
      else
        var realIp := Header(r, "X-Real-IP");
        if realIp.Some? && realIp.value != "" then Success(realIp.value)
        else Success(r.remoteAddr)
  }

  /** The header order getClientIP follows, stated on the headers alone. */
  lemma ClientIpPrecedence(request: Option<HttpRequest>)
    ensures request.None? ==> ClientIp(request) == Success(Unknown)
    ensures request.Some? ==>
      var r := request.value;
      var forwarded := Header(r, "X-Forwarded-For");
      var realIp := Header(r, "X-Real-IP");
      && (forwarded.Some? && forwarded.value != "" && !OnlyCommas(forwarded.value) ==>
            ClientIp(request) == Success(Trim(FirstField(forwarded.value))))
      && (forwarded.Some? && forwarded.value != "" && OnlyCommas(forwarded.value) ==>
            ClientIp(request).Failure? && ClientIp(request).error.kind == ArrayIndexOutOfBounds)
      && ((forwarded.None? || forwarded.value == "") && realIp.Some? && realIp.value != "" ==>
            ClientIp(request) == Success(realIp.value))
      && ((forwarded.None? || forwarded.value == "") && (realIp.None? || realIp.value == "") ==>
            ClientIp(request) == Success(r.remoteAddr))
  {
    if request.Some? {
      var forwarded := Header(request.value, "X-Forwarded-For");
      if forwarded.Some? && forwarded.value != "" {
        JavaSplitSpec(forwarded.value);
      }
    }
  }

  /** "," as X-Forwarded-For makes getClientIP throw. */
  lemma CommaOnlyForwardedForThrows(r: HttpRequest)
    requires Header(r, "X-Forwarded-For") == Some(",")
    ensures ClientIp(Some(r)).Failure?
  {
    assert OnlyCommas(",");
    JavaSplitSpec(",");
  }

  /** getUserAgent: the raw header, which may be absent. */
  function UserAgent(request: Option<HttpRequest>): (r: Option<string>)
    ensures request.None? ==> r == Some(Unknown)
    ensures request.Some? ==> (r.Some? <==> "User-Agent" in request.value.headers)
    ensures request.Some? && "User-Agent" in request.value.headers ==>
      r == Some(request.value.headers["User-Agent"])
  {
    match request
    case None => Some(Unknown)
    case Some(q) => Header(q, "User-Agent")
  }

  /** The Authentication in the security context. */
  datatype Authentication = Authentication(authenticated: bool, name: string)

  /** getCurrentUserId */
  function CurrentUserId(auth: Option<Authentication>): (r: string)
    ensures auth.Some? && auth.value.authenticated ==> r == auth.value.name
    ensures !(auth.Some? && auth.value.authenticated) ==> r == "system"
  {
    if auth.Some? && auth.value.authenticated then auth.value.name else "system"
  }

  /** The throwable handed to isSuspiciousFailure; a subclass counts as the
      class it extends. */
  datatype ThrowableClass = SecurityException | IllegalArgumentException | OtherThrowable(name: string)
  datatype Throwable = Throwable(cls: ThrowableClass, message: Option<string>)

  /** isSuspiciousFailure: getMessage() on any other class is lower-cased
      without a null check. */
  function IsSuspiciousFailure(t: Throwable): (r: Result<bool, Exception>)
    ensures (t.cls.SecurityException? || t.cls.IllegalArgumentException?) ==> r == Success(true)
    ensures r.Failure? <==> t.cls.OtherThrowable? && t.message.None?
    ensures r.Failure? ==> r.error.Unhandled? && r.error.kind == NullPointer
  {
    if t.cls.SecurityException? || t.cls.IllegalArgumentException? then Success(true)
    else if t.message.None? then Failure(Unhandled(NullPointer, None))
    else
      var m := ToLower(t.message.value);
      Success(Contains(m, "injection") || Contains(m, "unauthorized"))
  }

  /** Security and illegal-argument failures are suspicious whatever their
      message; any other is suspicious iff its message mentions injection or
      unauthorized in any case, and one without a message throws. */
  lemma SuspiciousFailureRule(t: Throwable)
    ensures (t.cls.SecurityException? || t.cls.IllegalArgumentException?) ==> IsSuspiciousFailure(t) == Success(true)
    ensures t.cls.OtherThrowable? ==> (IsSuspiciousFailure(t).Failure? <==> t.message.None?)
    ensures t.cls.OtherThrowable? && t.message.Some? ==>
      (IsSuspiciousFailure(t) == Success(true) <==>
         Contains(ToLower(t.message.value), "injection") || Contains(ToLower(t.message.value), "unauthorized"))
    ensures t.cls.OtherThrowable? && t.message.Some? ==>
      IsSuspiciousFailure(t) == IsSuspiciousFailure(t.(message := Some(ToUpper(t.message.value))))
  {
    if t.message.Some? {
      FoldForgetsOtherCase(t.message.value);
    }
  }
}
