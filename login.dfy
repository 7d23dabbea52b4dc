/**
 * The login form: an API key checked locally (not blank, at least eight
 * UTF-16 code units) before the remote login is attempted, the message
 * each failure shows, and where a successful login leads.
 */
module Login {
  import opened Seqs

  /**
   * The characters `String.prototype.trim` removes: the ECMAScript
   * WhiteSpace set (tab, vertical tab, form feed, the byte order mark and
   * every space separator) and the four line terminators.
   */
  predicate IsJsWhitespace(c: char)
  {
    c == '\U{0009}' || c == '\U{000A}' || c == '\U{000B}' || c == '\U{000C}' || c == '\U{000D}'
    || c == '\U{0020}' || c == '\U{00A0}' || c == '\U{1680}' || ('\U{2000}' <= c <= '\U{200A}')
    || c == '\U{2028}' || c == '\U{2029}' || c == '\U{202F}' || c == '\U{205F}' || c == '\U{3000}'
    || c == '\U{FEFF}'
  }

  /** `s.trimStart()`. */
  function TrimStart(s: string): (r: string)
    ensures |r| <= |s| && r == s[|s| - |r|..]
    ensures r != [] ==> !IsJsWhitespace(r[0])
    ensures forall i :: 0 <= i < |s| - |r| ==> IsJsWhitespace(s[i])
  {
    if s != [] && IsJsWhitespace(s[0]) then TrimStart(s[1..]) else s
  }

  /** `s.trimEnd()`. */
  function TrimEnd(s: string): (r: string)
    ensures |r| <= |s| && r == s[..|r|]
    ensures r != [] ==> !IsJsWhitespace(r[|r| - 1])
    ensures forall i :: |r| <= i < |s| ==> IsJsWhitespace(s[i])
  {
    if s != [] && IsJsWhitespace(s[|s| - 1]) then TrimEnd(s[..|s| - 1]) else s
  }

  /** `s.trim()`: a part of `s` that neither starts nor ends with whitespace. */
  function Trim(s: string): (r: string)
    ensures |r| <= |s|
    ensures r != [] ==> !IsJsWhitespace(r[0]) && !IsJsWhitespace(r[|r| - 1])
  {
    TrimEnd(TrimStart(s))
  }

  /** Every character is whitespace. */
  predicate IsBlank(s: string)
  {
    forall i :: 0 <= i < |s| ==> IsJsWhitespace(s[i])
  }

  /** `!s.trim()`: trimming leaves nothing exactly when every character is whitespace. */
  lemma TrimEmptyIffBlank(s: string)
    ensures Trim(s) == "" <==> IsBlank(s)
  {
    var t := TrimStart(s);
    if !IsBlank(s) {
      var i :| 0 <= i < |s| && !IsJsWhitespace(s[i]);
      assert t[i - (|s| - |t|)] == s[i];
    }
  }

  /** `s.length`: JavaScript counts UTF-16 code units, two for a character outside the Basic Multilingual Plane. */
  function Utf16Length(s: string): (n: nat)
    ensures |s| <= n <= 2 * |s|
  {
    if s == [] then 0 else (if s[0] as int > 0xFFFF then 2 else 1) + Utf16Length(s[1..])
  }

  const RequiredMessage: string := "La API Key es requerida"
  const TooShortMessage: string := "La API Key debe tener al menos 8 caracteres"
  const InvalidMessage: string := "API Key inv\U{00E1}lida"
  const LoginErrorMessage: string := "Error al iniciar sesi\U{00F3}n"

  /** The local checks, in order: blank first, then length; None lets the login go ahead. */
  function Validate(key: string): (err: Option<string>)
    ensures err == Some(RequiredMessage) <==> IsBlank(key)
    ensures err == Some(TooShortMessage) <==> !IsBlank(key) && Utf16Length(key) < 8
    ensures err.None? <==> !IsBlank(key) && Utf16Length(key) >= 8
  {
    TrimEmptyIffBlank(key);
    if Trim(key) == "" then Some(RequiredMessage)
    else if Utf16Length(key) < 8 then Some(TooShortMessage)
    else None
  }

  /** A key that passes is at least eight code units long and holds a non-whitespace character. */
  lemma ValidKeyShape(key: string)
    requires Validate(key).None?
    ensures Utf16Length(key) >= 8 && exists i :: 0 <= i < |key| && !IsJsWhitespace(key[i])
  {
  }

  /** `location.state?.from?.pathname || '/dashboard'`. */
  function RedirectTarget(from: Option<string>): (path: string)
    ensures from.None? || from.value == "" ==> path == "/dashboard"
    ensures from.Some? && from.value != "" ==> path == from.value
    ensures path != ""
  {
    match from
    case Some(p) => if p != "" then p else "/dashboard"
    case None => "/dashboard"
  }

  /**
   * What the login call did: resolved true, resolved false, or threw. The
   * page guards the call with its own `catch`, so all three are modelled;
   * the authentication context's `login` catches every exception itself
   * and resolves false, so as the application is wired the reply is never
   * `Threw` and `LoginErrorMessage` is not reached.
   */
  datatype LoginReply = Accepted | Rejected | Threw

  /** The form's state; `loginCalls` records the keys handed to the remote login. */
  class LoginForm {
    var apiKey: string
    var error: string
    var loading: bool
    ghost var loginCalls: seq<string>

    constructor ()
      ensures apiKey == "" && error == "" && !loading && loginCalls == []
    {
      apiKey := "";
      error := "";
      loading := false;
      loginCalls := [];
    }

    /** The input's `onChange`. */
    method SetApiKey(value: string)
      modifies this
      ensures apiKey == value && error == old(error) && loading == old(loading) && loginCalls == old(loginCalls)
    {
      apiKey := value;
    }

    /**
     * `handleSubmit`: clears the error, runs the local checks, and only when
     * both pass asks the login (whose answer is `reply`); returns the path
     * navigated to, if any. Loading is off again on every path.
     */
    method HandleSubmit(from: Option<string>, reply: LoginReply) returns (navigatedTo: Option<string>)
      modifies this
      ensures !loading && apiKey == old(apiKey)
      ensures Validate(apiKey).Some? ==>
                error == Validate(apiKey).value && loginCalls == old(loginCalls) && navigatedTo.None?
      ensures Validate(apiKey).None? ==> loginCalls == old(loginCalls) + [apiKey]
      ensures Validate(apiKey).None? && reply == Accepted ==> error == "" && navigatedTo == Some(RedirectTarget(from))
      ensures Validate(apiKey).None? && reply == Rejected ==> error == InvalidMessage && navigatedTo.None?
      ensures Validate(apiKey).None? && reply == Threw ==> error == LoginErrorMessage && navigatedTo.None?
    {
      error := "";
      loading := true;
      navigatedTo := None;
      var check := Validate(apiKey);
      if check.Some? {
        error := check.value;
        loading := false;
        return;
      }
      loginCalls := loginCalls + [apiKey];
      match reply {
        case Accepted =>
          navigatedTo := Some(RedirectTarget(from));
        case Rejected =>
          error := InvalidMessage;
        case Threw =>
          error := LoginErrorMessage;
      }
      loading := false;
    }
  }
}
