/** The registration form's submit handler: the two password checks, in
    order, and the single register request sent once both pass. */
module Register {
  import opened Base

  const MinPasswordLength: nat := 6
  const TooShortMessage: string := "Mật khẩu phải có ít nhất 6 ký tự."
  const MismatchMessage: string := "Mật khẩu nhập lại không khớp."
  const SuccessMessage: string := "Đăng ký thành công! Bạn có thể đăng nhập ngay."
  const FailureMessage: string := "Đăng ký thất bại!"

  /** The request the handler sends to the registration endpoint. */
  datatype RegisterRequest = RegisterRequest(email: string, password: string)

  /** What the registration request ends with; a failure may carry a message. */
  datatype Outcome = Registered | Rejected(message: Option<string>)

  /** The form's guards: the length check first, then the confirmation
      check; `None` when the form may be submitted. */
  function Validate(password: string, confirm: string): (r: Option<string>)
    ensures r.None? <==> |password| >= MinPasswordLength && password == confirm
    ensures |password| < MinPasswordLength ==> r == Some(TooShortMessage)
    ensures |password| >= MinPasswordLength && password != confirm ==> r == Some(MismatchMessage)
  {
    if |password| < MinPasswordLength then Some(TooShortMessage)
    else if password != confirm then Some(MismatchMessage)
    else None
  }

  class RegisterPage {
    var email: string
    var password: string
    var confirm: string
    var error: string
    var success: string
    var loading: bool
    /** Every register request sent so far, in order. */
    var requests: seq<RegisterRequest>

    constructor ()
      ensures email == "" && password == "" && confirm == ""
      ensures error == "" && success == "" && !loading && requests == []
    {
      email := "";
      password := "";
      confirm := "";
      error := "";
      success := "";
      loading := false;
      requests := [];
    }

    /** `handleRegister`: clear both messages; stop with the first failing
        check's message; otherwise send one request with the email and
        password and report its outcome. */
    method HandleRegister(outcome: Outcome)
      modifies this`error, this`success, this`loading, this`requests
      ensures Validate(password, confirm).Some? ==>
        && error == Validate(password, confirm).value && success == ""
        && requests == old(requests) && loading == old(loading)
      ensures Validate(password, confirm).None? ==>
        && requests == old(requests) + [RegisterRequest(email, password)]
        && !loading
        && (outcome.Registered? ==> success == SuccessMessage && error == "")
        && (outcome.Rejected? ==> success == "" && error == OrString(outcome.message, FailureMessage))
    {
      error := "";
      success := "";
      if |password| < MinPasswordLength {
        error := TooShortMessage;
        return;
      }
      if password != confirm {
        error := MismatchMessage;
        return;
      }
      loading := true;
      requests := requests + [RegisterRequest(email, password)];
      if outcome.Registered? {
        success := SuccessMessage;
      } else {
        error := OrString(outcome.message, FailureMessage);
      }
      loading := false;
    }
  }
}
