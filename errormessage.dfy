/** The onboarding error line: a message chosen from the verification stage
    (`isRequestEmail`) and the flag `check` the API helpers return, and a rule
    for when the line is shown at all. */
module ErrorMessage {

  const BadEmailFormat := "잘못된 이메일 형식입니다!"
  const UnknownEmail := "없는 이메일입니다! 다시 시도해주세요."
  const SendFailed := "인증 번호 전송에 실패했습니다!30초 후 다시 시도해주세요."
  const BadCodeFormat := "인증번호가 잘못된 형식입니다!"
  const CodeExpired := "인증번호가 만료되었어요! 다시 시도해주세요."
  const CodeMismatch := "일치하지 않은 인증번호입니다! 30초 후 다시 시도해주세요."
  const UnknownError := "알 수 없는 오류입니다."

  /** `getMessage(isRequestEmail, check)`: before a code has been requested the
      email-stage messages are tried first; every check value then falls through
      to the code-stage messages. */
  function GetMessage(isRequestEmail: bool, check: string): (m: string)
    ensures m in {BadEmailFormat, UnknownEmail, SendFailed, BadCodeFormat, CodeExpired, CodeMismatch, UnknownError}
    ensures isRequestEmail ==> m !in {BadEmailFormat, UnknownEmail, SendFailed}
  {
    if !isRequestEmail && check == "validation" then BadEmailFormat
    else if !isRequestEmail && check == "wrong" then UnknownEmail
    else if !isRequestEmail && check == "failed" then SendFailed
    else if check == "validation" then BadCodeFormat
    else if check == "expired" then CodeExpired
    else if check == "wrong" then CodeMismatch
    else UnknownError
  }

  /** The `display: none` rule of the message element. */
  predicate Hidden(check: string) {
    check == "success" || check == ""
  }

  /** Before a request, `validation`, `wrong` and `failed` get the email-stage
      messages and `expired` already gets the code-stage one. */
  lemma EmailStageMessages(check: string)
    ensures GetMessage(false, check) == BadEmailFormat <==> check == "validation"
    ensures GetMessage(false, check) == UnknownEmail <==> check == "wrong"
    ensures GetMessage(false, check) == SendFailed <==> check == "failed"
    ensures GetMessage(false, check) == CodeExpired <==> check == "expired"
    ensures GetMessage(false, check) != BadCodeFormat && GetMessage(false, check) != CodeMismatch
  {
  }

  /** After a request, only the code-stage messages occur. */
  lemma CodeStageMessages(check: string)
    ensures GetMessage(true, check) == BadCodeFormat <==> check == "validation"
    ensures GetMessage(true, check) == CodeExpired <==> check == "expired"
    ensures GetMessage(true, check) == CodeMismatch <==> check == "wrong"
    ensures GetMessage(true, check) !in {BadEmailFormat, UnknownEmail, SendFailed}
  {
  }

  /** The fallback message is given exactly to the check values neither stage
      handles; `failed` after a request and `success` are among them. */
  lemma UnknownOtherwise(isRequestEmail: bool, check: string)
    ensures GetMessage(isRequestEmail, check) == UnknownError <==>
      check !in {"validation", "expired", "wrong"} && (isRequestEmail || check != "failed")
    ensures GetMessage(true, "failed") == UnknownError && GetMessage(isRequestEmail, "success") == UnknownError
  {
  }

  /** The line is hidden on success and before any check, where the message would
      be the fallback one, and shown for a failed request. */
  lemma HiddenMeansFallback(isRequestEmail: bool, check: string)
    ensures Hidden("success") && Hidden("") && !Hidden("failed")
    ensures Hidden(check) ==> GetMessage(isRequestEmail, check) == UnknownError
  {
  }
}
