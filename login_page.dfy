/** The login page (app/login/page.tsx): the password rule of its schema and
    the mapping of sign-in errors to messages. */
module LoginPage {
  import opened Common

  const BadCredentials := "이메일 또는 비밀번호가 올바르지 않습니다."
  const NotConfirmed := "이메일을 확인해주세요. 이메일 확인 링크를 클릭해주세요."
  const TooManyAttempts := "너무 많은 로그인 시도가 있었습니다. 잠시 후 다시 시도해주세요."

  /** The message for a sign-in error: the first substring test that holds
      wins, else the raw message. */
  function LoginErrorMessage(message: string): (r: string)
    ensures Contains(message, "Invalid login credentials") ==> r == BadCredentials
    ensures !Contains(message, "Invalid login credentials") && Contains(message, "Email not confirmed") ==>
      r == NotConfirmed
    ensures (!Contains(message, "Invalid login credentials") && !Contains(message, "Email not confirmed")
             && Contains(message, "Too many requests")) ==> r == TooManyAttempts
    ensures (!Contains(message, "Invalid login credentials") && !Contains(message, "Email not confirmed")
             && !Contains(message, "Too many requests")) ==> r == message
  {
    if Contains(message, "Invalid login credentials") then BadCredentials
    else if Contains(message, "Email not confirmed") then NotConfirmed
    else if Contains(message, "Too many requests") then TooManyAttempts
    else message
  }

  /** A message holding the first phrase anywhere gets the first phrase's
      text, whatever else it holds. */
  lemma EarliestTestWins(a: string, b: string)
    ensures LoginErrorMessage(a + "Invalid login credentials" + b) == BadCredentials
  {
    var m := a + "Invalid login credentials" + b;
    assert m[|a|..|a| + |"Invalid login credentials"|] == "Invalid login credentials";
    assert OccursAt(m, "Invalid login credentials", |a|);
  }

  /** `z.string().min(6)` for the password. */
  function PasswordError(password: string): (r: Option<string>)
    ensures r.None? <==> |password| >= 6
  {
    if |password| < 6 then Some("비밀번호는 최소 6자 이상이어야 합니다") else None
  }
}
