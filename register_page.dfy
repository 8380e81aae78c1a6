/**
 * The sign-up page of frontend/pages/register.js: the password pattern and
 * confirmation checks that run before the request, and what the page does
 * with the server's answer.
 */
module RegisterPage {
  import opened Wrappers
  import opened Text
  import opened Js
  import Api

  const PolicyError := "Password: 8+ chars, one uppercase, one number, one special char."
  const MismatchError := "Passwords do not match."
  const RegistrationFailed := "Registration failed."

  /** ECMAScript line terminators, which `.` does not match. */
  predicate IsLineTerminator(c: char) {
    c == '\n' || c == '\r' || c == '\U{2028}' || c == '\U{2029}'
  }

  /**
   * `/^(?=.*[A-Z])(?=.*\d)(?=.*[!@#$%^&*]).{8,}$/` without flags: no line
   * terminator anywhere, at least 8 UTF-16 code units, an ASCII capital, an
   * ASCII digit and one of the eight specials.
   */
  predicate ClientPasswordOk(pw: string)
    ensures ClientPasswordOk(pw) ==> forall i :: 0 <= i < |pw| ==> pw[i] != '\n' && pw[i] != '\r'
  {
    && (forall i :: 0 <= i < |pw| ==> !IsLineTerminator(pw[i]))
    && Utf16Length(pw) >= 8
    && (exists i :: 0 <= i < |pw| && IsAsciiUpper(pw[i]))
    && (exists i :: 0 <= i < |pw| && IsAsciiDigit(pw[i]))
    && (exists i :: 0 <= i < |pw| && Api.IsPasswordSpecial(pw[i]))
  }

  /** On ASCII text without line feeds or carriage returns, the page and the server accept the same passwords. */
  lemma AsciiPolicyAgreement(pw: string)
    requires IsAscii(pw)
    requires forall i :: 0 <= i < |pw| ==> pw[i] != '\n' && pw[i] != '\r'
    ensures ClientPasswordOk(pw) <==> Api.ServerPasswordOk(pw)
  {
    AsciiUtf16Length(pw);
    assert Api.PyLineBody(pw) == pw;
    forall i | 0 <= i < |pw|
      ensures Api.IsPyDigit(pw[i]) <==> IsAsciiDigit(pw[i])
    {
      AsciiDecimalValue(pw[i]);
    }
  }

  /** The error the checks before the request leave, if any: the pattern is tested before the confirmation. */
  function ClientCheck(password: string, confirm: string): (r: Option<string>)
    ensures r.None? <==> ClientPasswordOk(password) && password == confirm
    ensures !ClientPasswordOk(password) ==> r == Some(PolicyError)
    ensures ClientPasswordOk(password) && password != confirm ==> r == Some(MismatchError)
  {
    if !ClientPasswordOk(password) then Some(PolicyError)
    else if password != confirm then Some(MismatchError)
    else None
  }

  /** How the registration request ended: resolved with a status and body, or rejected with an error. */
  datatype PostOutcome = Resolved(status: int, data: JsValue) | Threw(err: JsValue)

  /** `err?.response?.data?.detail || "Registration failed."` */
  function FailureText(err: JsValue): (shown: JsValue)
    ensures Truthy(shown)
    ensures !Truthy(Get(Get(Get(err, "response"), "data"), "detail")) ==> shown == Str(RegistrationFailed)
    ensures Truthy(Get(Get(Get(err, "response"), "data"), "detail")) ==> shown == Get(Get(Get(err, "response"), "data"), "detail")
  {
    Or(Get(Get(Get(err, "response"), "data"), "detail"), Str(RegistrationFailed))
  }

  /** A 400 from the server shows the server's own detail. */
  lemma ServerDetailShown(detail: string)
    requires detail != ""
    ensures FailureText(Obj(map["response" := Obj(map["data" := Obj(map["detail" := Str(detail)])])])) == Str(detail)
  {
  }

  class Page {
    var error: JsValue
    /** `{ username, email, password }` bodies posted to `/register`. */
    var requests: seq<(string, string, string)>
    /** What `localStorage.setItem("user", ...)` last stored. */
    var storedUser: Option<JsValue>
    var navigatedHome: bool

    constructor ()
      ensures error == Str("") && requests == [] && storedUser == None && !navigatedHome
    {
      error, requests, storedUser, navigatedHome := Str(""), [], None, false;
    }

    /** `handleSubmit`: the error is reset first; a failed check stops before the request. */
    method HandleSubmit(username: string, email: string, password: string, confirm: string, outcome: PostOutcome)
      modifies this
      ensures ClientCheck(password, confirm).Some? ==>
        && error == Str(ClientCheck(password, confirm).value)
        && requests == old(requests) && storedUser == old(storedUser) && navigatedHome == old(navigatedHome)
      ensures ClientCheck(password, confirm).None? ==> requests == old(requests) + [(username, email, password)]
      ensures ClientCheck(password, confirm).None? && outcome.Resolved? && outcome.status == 200 ==>
        error == Str("") && storedUser == Some(outcome.data) && navigatedHome
      ensures ClientCheck(password, confirm).None? && outcome.Resolved? && outcome.status != 200 ==>
        error == Str("") && storedUser == old(storedUser) && navigatedHome == old(navigatedHome)
      ensures ClientCheck(password, confirm).None? && outcome.Threw? ==>
        error == FailureText(outcome.err) && storedUser == old(storedUser) && navigatedHome == old(navigatedHome)
    {
      error := Str("");
      var check := ClientCheck(password, confirm);
      if check.Some? {
        error := Str(check.value);
        return;
      }
      requests := requests + [(username, email, password)];
      match outcome
      case Resolved(status, data) =>
        if status == 200 {
          storedUser := Some(data);
          navigatedHome := true;
        }
      case Threw(err) =>
        error := FailureText(err);
    }
  }
}
