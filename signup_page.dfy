/** The sign-up page (app/signup/page.tsx): the password strength meter, the
    form schema and the mapping of sign-up errors to messages. */
module SignupPage {
  import opened Common

  // ---------------------------------------------------------------------------
  // Password strength

  /** Some character of `p` lies in `lo..hi`. */
  predicate HasCharIn(p: string, lo: char, hi: char)
  {
    exists i :: 0 <= i < |p| && lo <= p[i] <= hi
  }

  predicate IsAlnum(c: char)
  {
    'A' <= c <= 'Z' || 'a' <= c <= 'z' || '0' <= c <= '9'
  }

  /** `/[^A-Za-z0-9]/.test(p)` */
  predicate HasOther(p: string)
  {
    exists i :: 0 <= i < |p| && !IsAlnum(p[i])
  }

  /** The five criteria, in the order they are tested. */
  function Criteria(p: string): seq<bool>
  {
    [|p| >= 8, HasCharIn(p, 'A', 'Z'), HasCharIn(p, 'a', 'z'), HasCharIn(p, '0', '9'), HasOther(p)]
  }

  function CountTrue(bs: seq<bool>): (n: nat)
    ensures n <= |bs|
  {
    if bs == [] then 0 else (if bs[0] then 1 else 0) + CountTrue(bs[1..])
  }

  /** The number of satisfied criteria. */
  function Strength(p: string): (n: nat)
    ensures n <= 5
  {
    CountTrue(Criteria(p))
  }

  function Point(b: bool): nat { if b then 1 else 0 }

  /** The count over five flags, written out. */
  lemma CountFive(a: bool, b: bool, c: bool, d: bool, e: bool)
    ensures CountTrue([a, b, c, d, e]) == Point(a) + Point(b) + Point(c) + Point(d) + Point(e)
  {
    assert [e][1..] == [];
    assert CountTrue([e]) == Point(e);
    assert [d, e][1..] == [e];
    assert CountTrue([d, e]) == Point(d) + Point(e);
    assert [c, d, e][1..] == [d, e];
    assert CountTrue([c, d, e]) == Point(c) + Point(d) + Point(e);
    assert [b, c, d, e][1..] == [c, d, e];
    assert CountTrue([b, c, d, e]) == Point(b) + Point(c) + Point(d) + Point(e);
    assert [a, b, c, d, e][1..] == [b, c, d, e];
  }

  /** `getPasswordStrength`: one increment per satisfied criterion. */
  method GetPasswordStrength(p: string) returns (strength: nat)
    ensures strength == Strength(p)
    ensures strength <= 5
  {
    strength := 0;
    if |p| >= 8 { strength := strength + 1; }
    if HasCharIn(p, 'A', 'Z') { strength := strength + 1; }
    if HasCharIn(p, 'a', 'z') { strength := strength + 1; }
    if HasCharIn(p, '0', '9') { strength := strength + 1; }
    if HasOther(p) { strength := strength + 1; }
    CountFive(|p| >= 8, HasCharIn(p, 'A', 'Z'), HasCharIn(p, 'a', 'z'), HasCharIn(p, '0', '9'), HasOther(p));
  }

  /** A criterion that holds keeps holding once a character is appended. */
  lemma CriteriaGrow(p: string, c: char)
    ensures forall k :: 0 <= k < 5 && Criteria(p)[k] ==> Criteria(p + [c])[k]
  {
    var q := p + [c];
    assert forall i :: 0 <= i < |p| ==> q[i] == p[i];
    if HasCharIn(p, 'A', 'Z') {
      var i :| 0 <= i < |p| && 'A' <= p[i] <= 'Z';
      assert 'A' <= q[i] <= 'Z';
    }
    if HasCharIn(p, 'a', 'z') {
      var i :| 0 <= i < |p| && 'a' <= p[i] <= 'z';
      assert 'a' <= q[i] <= 'z';
    }
    if HasCharIn(p, '0', '9') {
      var i :| 0 <= i < |p| && '0' <= p[i] <= '9';
      assert '0' <= q[i] <= '9';
    }
    if HasOther(p) {
      var i :| 0 <= i < |p| && !IsAlnum(p[i]);
      assert !IsAlnum(q[i]);
    }
  }

  /** Counting over pointwise larger flags gives no smaller count. */
  lemma {:induction false} CountTrueMono(a: seq<bool>, b: seq<bool>)
    requires |a| == |b|
    requires forall k :: 0 <= k < |a| && a[k] ==> b[k]
    ensures CountTrue(a) <= CountTrue(b)
  {
    if a != [] {
      CountTrueMono(a[1..], b[1..]);
    }
  }

  /** Typing one more character never weakens the password. */
  lemma StrengthMonotone(p: string, c: char)
    ensures Strength(p) <= Strength(p + [c])
  {
    CriteriaGrow(p, c);
    CountTrueMono(Criteria(p), Criteria(p + [c]));
  }

  /** An empty password meets no criterion; one meeting all five scores 5. */
  lemma StrengthExtremes(p: string)
    ensures Strength([]) == 0
    ensures |p| >= 8 && HasCharIn(p, 'A', 'Z') && HasCharIn(p, 'a', 'z') && HasCharIn(p, '0', '9') && HasOther(p) ==>
      Strength(p) == 5
  {
    CountFive(false, false, false, false, false);
    CountFive(|p| >= 8, HasCharIn(p, 'A', 'Z'), HasCharIn(p, 'a', 'z'), HasCharIn(p, '0', '9'), HasOther(p));
  }

  /** Bar `index` of the five is green iff `index < strength`. */
  predicate BarFilled(index: nat, strength: nat)
  {
    index < strength
  }

  /** The meter's hint. */
  function StrengthHint(strength: nat): (r: string)
    ensures r == "좋은 비밀번호입니다" <==> strength >= 3
  {
    if strength < 3 then "비밀번호를 더 강화해주세요" else "좋은 비밀번호입니다"
  }

  function FilledBars(strength: nat, n: nat): (r: nat)
  {
    if n == 0 then 0 else FilledBars(strength, n - 1) + (if BarFilled(n - 1, strength) then 1 else 0)
  }

  /** Exactly `strength` of the five bars are filled, the leftmost ones. */
  lemma {:induction false} FilledBarsCount(strength: nat, n: nat)
    requires strength <= 5 && n <= 5
    ensures FilledBars(strength, n) == Min(strength, n)
  {
    if n > 0 {
      FilledBarsCount(strength, n - 1);
    }
  }

  // ---------------------------------------------------------------------------
  // Schema

  datatype SignupForm = SignupForm(displayName: string, email: string, password: string, confirmPassword: string)

  /** The field errors of `SignupSchema`; the e-mail format rule is the
      library's and enters as `emailValid`. */
  datatype SignupErrors = SignupErrors(
    displayName: Option<string>,
    email: Option<string>,
    password: Option<string>,
    confirmPassword: Option<string>)

  function SignupSchemaErrors(f: SignupForm, emailValid: bool): (e: SignupErrors)
    ensures e.displayName.Some? <==> |f.displayName| < 2
    ensures e.password.Some? <==> |f.password| < 8
    ensures e.confirmPassword.Some? <==> f.password != f.confirmPassword
    ensures e.email.Some? <==> !emailValid
  {
    SignupErrors(
      if |f.displayName| < 2 then Some("이름은 최소 2자 이상이어야 합니다") else None,
      if !emailValid then Some("유효한 이메일 주소를 입력해주세요") else None,
      if |f.password| < 8 then Some("비밀번호는 최소 8자 이상이어야 합니다") else None,
      if f.password != f.confirmPassword then Some("비밀번호가 일치하지 않습니다") else None)
  }

  predicate SignupValid(f: SignupForm, emailValid: bool)
  {
    SignupSchemaErrors(f, emailValid) == SignupErrors(None, None, None, None)
  }

  /** A valid form has a name of at least 2 and a confirmed password of at least
      8 characters, and such a password already scores a point. */
  lemma SignupValidMeaning(f: SignupForm, emailValid: bool)
    ensures SignupValid(f, emailValid) <==>
      |f.displayName| >= 2 && |f.password| >= 8 && f.password == f.confirmPassword && emailValid
    ensures SignupValid(f, emailValid) ==> Strength(f.password) >= 1
  {
    if |f.password| >= 8 {
      assert Criteria(f.password)[0];
    }
  }

  // ---------------------------------------------------------------------------
  // Error messages

  const AlreadyRegistered := "이미 등록된 이메일입니다."
  const WeakPassword := "비밀번호가 너무 약합니다. 더 강력한 비밀번호를 사용해주세요."
  const InvalidEmail := "유효하지 않은 이메일 주소입니다."

  /** The message for a sign-up error: the substring tests in order, else the
      raw message. */
  method SignupErrorMessage(message: string) returns (errorMessage: string)
    ensures Contains(message, "already registered") ==> errorMessage == AlreadyRegistered
    ensures !Contains(message, "already registered") && Contains(message, "Password") ==> errorMessage == WeakPassword
    ensures !Contains(message, "already registered") && !Contains(message, "Password") && Contains(message, "Email") ==>
      errorMessage == InvalidEmail
    ensures !Contains(message, "already registered") && !Contains(message, "Password") && !Contains(message, "Email") ==>
      errorMessage == message
  {
    errorMessage := "회원가입 중 오류가 발생했습니다.";
    if Contains(message, "already registered") {
      errorMessage := AlreadyRegistered;
    } else if Contains(message, "Password") {
      errorMessage := WeakPassword;
    } else if Contains(message, "Email") {
      errorMessage := InvalidEmail;
    } else {
      errorMessage := message;
    }
  }
}
