/**
 * The account flows (AccountController of the account module): password
 * change, the forgot/reset token lifecycle, and the activation-code
 * lifecycle, each rate-limited per email where the source does so.
 *
 * The identity provider, the mail transport, the clock and the random
 * draws are parameters: what the provider answers, whether the mail
 * transport throws, the current instant in milliseconds (the source's
 * `System.currentTimeMillis()` and `LocalDateTime.now()` are one clock
 * here), the fresh reset token, and the value `nextInt(900000)` draws.
 * Replies are HTTP status codes. A mail failure is an exception that
 * escapes the handler, so the transaction rolls back its database writes;
 * the static rate-limit maps are not part of the transaction and keep
 * their new entry.
 */
module AccountFlows {
  import opened Domain
  import PasswordPolicy
  import opened ActivationCodes

  const RateWindow: int := 60000
  const ResetTokenLifetime: int := 30 * 60000
  const ActivationCodeLifetime: int := 10 * 60000

  /** `s != null && !s.isEmpty()` */
  predicate Present(s: Option<string>)
  {
    s.Some? && |s.value| > 0
  }

  // ---------------------------------------------------------------------
  // changePassword
  // ---------------------------------------------------------------------

  /** What `verifyPassword` does: answers true, answers false, or throws. */
  datatype VerifyAnswer = Verified | WrongPassword | VerifyThrows

  /** The reply of changePassword and which identity-provider steps it reached. */
  datatype PasswordChange = PasswordChange(status: nat, verifyCalled: bool, policyChecked: bool, changeCalled: bool)

  /**
   * changePassword: the local checks come before any call to the identity
   * provider, the policy is checked only once the current password is
   * verified, and the password is changed only when both pass.
   */
  function ChangePassword(current: Option<string>, proposed: Option<string>, verify: VerifyAnswer, changeSucceeds: bool)
    : (r: PasswordChange)
    ensures r.verifyCalled <==> Present(current) && Present(proposed) && current != proposed
    ensures !r.verifyCalled ==> r.status == 400 && !r.policyChecked && !r.changeCalled
    ensures r.policyChecked <==> r.verifyCalled && verify == Verified
    ensures r.verifyCalled && verify == VerifyThrows ==> r.status == 500
    ensures r.verifyCalled && verify == WrongPassword ==> r.status == 403
    ensures r.changeCalled <==> r.policyChecked && PasswordPolicy.IsValid(proposed)
    ensures r.policyChecked && !r.changeCalled ==> r.status == 400
    ensures r.changeCalled ==> (r.status == 200 <==> changeSucceeds) && (r.status != 200 ==> r.status == 500)
    ensures r.status == 200 ==> r.changeCalled && current != proposed && PasswordPolicy.IsValid(proposed)
  {
    if !Present(current) || !Present(proposed) then PasswordChange(400, false, false, false)
    else if current.value == proposed.value then PasswordChange(400, false, false, false)
    else if verify.VerifyThrows? then PasswordChange(500, true, false, false)
    else if verify.WrongPassword? then PasswordChange(403, true, false, false)
    else if !PasswordPolicy.IsValid(proposed) then PasswordChange(400, true, true, false)
    else if changeSucceeds then PasswordChange(200, true, true, true)
    else PasswordChange(500, true, true, true)
  }

  // ---------------------------------------------------------------------
  // Rate limiting
  // ---------------------------------------------------------------------

  function Lookup(m: map<string, Instant>, email: string): Option<Instant>
  {
    if email in m then Some(m[email]) else None
  }

  /** `last != null && now - last < 60_000` refuses; anything else is admitted. */
  predicate Admits(last: Option<Instant>, now: Instant)
  {
    last.None? || now - last.value >= RateWindow
  }

  /** One rate-limited request for an email at an instant. */
  datatype Request = Request(email: string, at: Instant)

  /** The limiter's map after a run of requests: each admitted request stores its instant. */
  function Stamps(last: map<string, Instant>, reqs: seq<Request>): map<string, Instant>
    decreases |reqs|
  {
    if reqs == [] then last
    else
      var m := Stamps(last, reqs[..|reqs| - 1]);
      var r := reqs[|reqs| - 1];
      if Admits(Lookup(m, r.email), r.at) then m[r.email := r.at] else m
  }

  predicate AdmittedAt(last: map<string, Instant>, reqs: seq<Request>, i: nat)
    requires i < |reqs|
  {
    Admits(Lookup(Stamps(last, reqs[..i]), reqs[i].email), reqs[i].at)
  }

  predicate NonDecreasing(reqs: seq<Request>)
  {
    forall i, j :: 0 <= i < j < |reqs| ==> reqs[i].at <= reqs[j].at
  }

  /** With a clock that does not go back, the stored instant is no earlier than any admitted request of that email. */
  lemma {:induction false} StampCoversAdmitted(last: map<string, Instant>, reqs: seq<Request>, i: nat)
    requires NonDecreasing(reqs) && i < |reqs| && AdmittedAt(last, reqs, i)
    ensures reqs[i].email in Stamps(last, reqs) && Stamps(last, reqs)[reqs[i].email] >= reqs[i].at
    decreases |reqs|
  {
    var n := |reqs| - 1;
    var init := reqs[..n];
    var r := reqs[n];
    var m := Stamps(last, init);
    if i < n {
      assert init[..i] == reqs[..i];
      StampCoversAdmitted(last, init, i);
      if Admits(Lookup(m, r.email), r.at) && r.email == reqs[i].email {
        assert reqs[i].at <= r.at;
      }
    } else {
      assert reqs[..i] == init;
    }
  }

  /**
   * Any two admitted requests for the same email, with a clock that does
   * not go back, are at least a minute apart; refused requests do not
   * move the window.
   */
  lemma AdmittedAreSpaced(last: map<string, Instant>, reqs: seq<Request>, i: nat, j: nat)
    requires NonDecreasing(reqs) && i < j < |reqs| && reqs[i].email == reqs[j].email
    requires AdmittedAt(last, reqs, i) && AdmittedAt(last, reqs, j)
    ensures reqs[j].at - reqs[i].at >= RateWindow
  {
    var pre := reqs[..j];
    assert pre[..i] == reqs[..i];
    assert NonDecreasing(pre);
    StampCoversAdmitted(last, pre, i);
  }

  /** After a refusal the same email is admitted again exactly one window after its stored instant. */
  lemma WindowIsOneMinute(t: Instant)
    ensures !Admits(Some(t), t + RateWindow - 1)
    ensures Admits(Some(t), t + RateWindow)
  {
  }

  // ---------------------------------------------------------------------
  // Activation codes
  // ---------------------------------------------------------------------

  function DigitChar(d: nat): char
    requires d < 10
  {
    ('0' as int + d) as char
  }

  predicate IsDigits(s: string)
  {
    forall i :: 0 <= i < |s| ==> '0' <= s[i] <= '9'
  }

  /** `String.valueOf` of a non-negative int: its decimal digits, no leading zero. */
  function Decimal(n: nat): (s: string)
    ensures |s| >= 1 && IsDigits(s)
    ensures n > 0 ==> s[0] != '0'
    decreases n
  {
    if n < 10 then [DigitChar(n)] else Decimal(n / 10) + [DigitChar(n % 10)]
  }

  /** The value a string of decimal digits denotes. */
  function DecimalValue(s: string): nat
    requires IsDigits(s)
    decreases |s|
  {
    if s == [] then 0 else DecimalValue(s[..|s| - 1]) * 10 + (s[|s| - 1] as int - '0' as int)
  }

  lemma {:induction false} DecimalRoundTrip(n: nat)
    ensures DecimalValue(Decimal(n)) == n
    decreases n
  {
    if n >= 10 {
      DecimalRoundTrip(n / 10);
      var s := Decimal(n);
      assert s[..|s| - 1] == Decimal(n / 10);
    }
  }

  function Pow10(k: nat): nat
  {
    if k == 0 then 1 else 10 * Pow10(k - 1)
  }

  lemma {:induction false} DecimalLength(n: nat, k: nat)
    requires k >= 1 && Pow10(k - 1) <= n < Pow10(k)
    ensures |Decimal(n)| == k
    decreases k
  {
    assert Pow10(1) == 10;
    if k > 1 {
      DecimalLength(n / 10, k - 1);
    }
  }

  /** `100000 + random.nextInt(900000)` as a string: six digits, first digit not zero, denoting the draw plus 100000. */
  function ActivationCodeOf(draw: nat): (code: string)
    requires draw < 900000
    ensures |code| == 6 && IsDigits(code) && code[0] != '0'
    ensures DecimalValue(code) == 100000 + draw
  {
    var n := 100000 + draw;
    assert Pow10(5) == 100000 && Pow10(6) == 1000000;
    DecimalLength(n, 6);
    DecimalRoundTrip(n);
    Decimal(n)
  }

  /** Different draws give different codes. */
  lemma ActivationCodesDistinct(x: nat, y: nat)
    requires x < 900000 && y < 900000 && x != y
    ensures ActivationCodeOf(x) != ActivationCodeOf(y)
  {
  }

  /** How verifyActivationCode judges a submitted code against the stored row. */
  datatype CodeVerdict = NoCode | Mismatch | Spent | Accepted

  function JudgeCode(row: Option<ActivationCode>, code: string, now: Instant): (v: CodeVerdict)
    ensures v == NoCode <==> row.None?
    ensures v == Mismatch <==> row.Some? && row.value.code != code
    ensures v == Spent <==> row.Some? && row.value.code == code && (row.value.used || row.value.expiryDate < now)
    ensures v == Accepted <==> row.Some? && row.value.code == code && !row.value.used && now <= row.value.expiryDate
  {
    if row.None? then NoCode
    else if row.value.code != code then Mismatch
    else if row.value.used || row.value.expiryDate < now then Spent
    else Accepted
  }

  /** A code is accepted at most once: once marked used, the same code is spent. */
  lemma UsedCodeIsSpent(row: ActivationCode, code: string, now: Instant)
    requires JudgeCode(Some(row), code, now) == Accepted
    ensures JudgeCode(Some(row.(used := true)), code, now) == Spent
  {
  }

  /** A freshly issued code is accepted up to and including its expiry instant, and spent after. */
  lemma FreshCodeLifetime(id: nat, email: string, draw: nat, issued: Instant, now: Instant)
    requires draw < 900000
    ensures var row := ActivationCode(id, email, ActivationCodeOf(draw), issued + ActivationCodeLifetime, false);
      (JudgeCode(Some(row), ActivationCodeOf(draw), now) == Accepted <==> now <= issued + 600000) &&
      (JudgeCode(Some(row), ActivationCodeOf(draw), now) == Spent <==> now > issued + 600000)
  {
  }

  // ---------------------------------------------------------------------
  // Reset tokens
  // ---------------------------------------------------------------------

  /** A PasswordResetToken row; the table is keyed by the token value. */
  datatype ResetToken = ResetToken(email: string, expiryDate: Instant)

  /** `deleteByEmail`: every token of that email is dropped. */
  function WithoutEmail(tokens: map<string, ResetToken>, email: string): (r: map<string, ResetToken>)
    ensures forall t :: t in r <==> t in tokens && tokens[t].email != email
    ensures forall t :: t in r ==> r[t] == tokens[t]
  {
    map t | t in tokens && tokens[t].email != email :: tokens[t]
  }

  /** The controller's state: the two static rate maps, the token table and the activation-code table. */
  class AccountController {
    var forgotRate: map<string, Instant>
    var activationRate: map<string, Instant>
    var tokens: map<string, ResetToken>
    const codes: ActivationCodeRepository

    ghost predicate Valid()
      reads this, codes
    {
      codes.Valid()
    }

    constructor (codes: ActivationCodeRepository)
      requires codes.Valid()
      ensures Valid() && this.codes == codes && forgotRate == map[] && activationRate == map[] && tokens == map[]
    {
      this.codes := codes;
      forgotRate := map[];
      activationRate := map[];
      tokens := map[];
    }

    /**
     * forgotPassword: an admitted request stamps the forgot map, drops the
     * email's tokens and saves one new token valid for 30 minutes; a mail
     * failure rolls the token writes back but keeps the stamp.
     */
    method ForgotPassword(email: Option<string>, now: Instant, token: string, mailFails: bool) returns (status: nat)
      requires Valid()
      modifies this
      ensures Valid()
      ensures activationRate == old(activationRate)
      ensures !Present(email) ==> status == 400 && forgotRate == old(forgotRate) && tokens == old(tokens)
      ensures Present(email) && !Admits(Lookup(old(forgotRate), email.value), now) ==>
        status == 429 && forgotRate == old(forgotRate) && tokens == old(tokens)
      ensures Present(email) && Admits(Lookup(old(forgotRate), email.value), now) ==>
        forgotRate == old(forgotRate)[email.value := now]
      ensures Present(email) && Admits(Lookup(old(forgotRate), email.value), now) && mailFails ==>
        status == 500 && tokens == old(tokens)
      ensures Present(email) && Admits(Lookup(old(forgotRate), email.value), now) && !mailFails ==>
        status == 200 &&
        tokens == WithoutEmail(old(tokens), email.value)[token := ResetToken(email.value, now + ResetTokenLifetime)]
      ensures status == 200 ==> forall t :: t in tokens && tokens[t].email == email.value ==> t == token
    {
      if !Present(email) {
        return 400;
      }
      var e := email.value;
      if e in forgotRate && now - forgotRate[e] < RateWindow {
        return 429;
      }
      forgotRate := forgotRate[e := now];
      var before := tokens;
      tokens := WithoutEmail(tokens, e);
      tokens := tokens[token := ResetToken(e, now + ResetTokenLifetime)];
      if mailFails {
        tokens := before;
        return 500;
      }
      status := 200;
    }

    /**
     * resetPassword: an expired token is deleted and refused; an unknown
     * user or a password the policy refuses leaves the token in place; the
     * token is deleted only once the provider has changed the password.
     */
    method ResetPassword(token: Option<string>, newPassword: Option<string>, now: Instant,
                         userId: Option<string>, changeSucceeds: bool) returns (status: nat)
      requires Valid()
      modifies this
      ensures Valid()
      ensures forgotRate == old(forgotRate) && activationRate == old(activationRate)
      ensures !Present(token) || !Present(newPassword) ==> status == 400 && tokens == old(tokens)
      ensures Present(token) && Present(newPassword) ==>
        var t := token.value;
        (t !in old(tokens) ==> status == 403 && tokens == old(tokens)) &&
        (t in old(tokens) && old(tokens)[t].expiryDate < now ==> status == 403 && tokens == old(tokens) - {t}) &&
        (t in old(tokens) && now <= old(tokens)[t].expiryDate ==>
          (userId.None? ==> status == 404 && tokens == old(tokens)) &&
          (userId.Some? && !PasswordPolicy.IsValid(newPassword) ==> status == 400 && tokens == old(tokens)) &&
          (userId.Some? && PasswordPolicy.IsValid(newPassword) ==>
            (changeSucceeds ==> status == 200 && tokens == old(tokens) - {t}) &&
            (!changeSucceeds ==> status == 500 && tokens == old(tokens))))
      ensures status == 200 ==> PasswordPolicy.IsValid(newPassword) && token.value in old(tokens) && token.value !in tokens
    {
      if !Present(token) || !Present(newPassword) {
        return 400;
      }
      var t := token.value;
      if t !in tokens {
        return 403;
      }
      var prt := tokens[t];
      if prt.expiryDate < now {
        tokens := tokens - {t};
        return 403;
      }
      if userId.None? {
        return 404;
      }
      if !PasswordPolicy.IsValid(newPassword) {
        return 400;
      }
      if !changeSucceeds {
        return 500;
      }
      tokens := tokens - {t};
      status := 200;
    }

    /**
     * sendActivationCode: an admitted request stamps the activation map and
     * upserts a six-digit code valid for 10 minutes; a mail failure rolls
     * the upsert back but keeps the stamp.
     */
    method SendActivationCode(email: Option<string>, now: Instant, draw: nat, mailFails: bool) returns (status: nat)
      requires Valid() && draw < 900000
      modifies this, codes
      ensures Valid()
      ensures forgotRate == old(forgotRate) && tokens == old(tokens)
      ensures !Present(email) ==> status == 400 && activationRate == old(activationRate) && codes.rows == old(codes.rows)
      ensures Present(email) && !Admits(Lookup(old(activationRate), email.value), now) ==>
        status == 429 && activationRate == old(activationRate) && codes.rows == old(codes.rows)
      ensures Present(email) && Admits(Lookup(old(activationRate), email.value), now) ==>
        activationRate == old(activationRate)[email.value := now]
      ensures Present(email) && Admits(Lookup(old(activationRate), email.value), now) && mailFails ==>
        status == 500 && codes.rows == old(codes.rows)
      ensures Present(email) && Admits(Lookup(old(activationRate), email.value), now) && !mailFails ==>
        status == 200 &&
        codes.rows.Keys == old(codes.rows.Keys) + {email.value} &&
        codes.rows[email.value].code == ActivationCodeOf(draw) &&
        codes.rows[email.value].expiryDate == now + ActivationCodeLifetime &&
        !codes.rows[email.value].used &&
        (forall e :: e in old(codes.rows) && e != email.value ==> codes.rows[e] == old(codes.rows[e]))
    {
      if !Present(email) {
        return 400;
      }
      var e := email.value;
      if e in activationRate && now - activationRate[e] < RateWindow {
        return 429;
      }
      activationRate := activationRate[e := now];
      var code := ActivationCodeOf(draw);
      var snapshot := codes.rows;
      codes.Upsert(e, code, now + ActivationCodeLifetime);
      if mailFails {
        codes.Restore(snapshot);
        return 500;
      }
      status := 200;
    }

    /**
     * verifyActivationCode: a wrong code leaves the row untouched; a used or
     * expired match deletes it; a valid match is marked used before the
     * user is looked up, so an unknown user still consumes the code.
     */
    method VerifyActivationCode(email: Option<string>, code: Option<string>, now: Instant,
                                userId: Option<string>, verifySucceeds: bool) returns (status: nat)
      requires Valid()
      modifies codes
      ensures Valid()
      ensures !Present(email) || !Present(code) ==> status == 400 && codes.rows == old(codes.rows)
      ensures Present(email) && Present(code) ==>
        var e := email.value;
        var v := JudgeCode(RowFor(old(codes.rows), e), code.value, now);
        (v == NoCode || v == Mismatch ==> status == 403 && codes.rows == old(codes.rows)) &&
        (v == Spent ==> status == 403 && codes.rows == old(codes.rows) - {e}) &&
        (v == Accepted ==>
          (codes.rows == old(codes.rows)[e := old(codes.rows)[e].(used := true)] &&
           (userId.None? ==> status == 404) &&
           (userId.Some? ==> (verifySucceeds <==> status == 200) && (!verifySucceeds ==> status == 500))))
    {
      if !Present(email) || !Present(code) {
        return 400;
      }
      var e := email.value;
      var row := codes.FindByEmail(e);
      var verdict := JudgeCode(row, code.value, now);
      if verdict == NoCode || verdict == Mismatch {
        return 403;
      }
      var ac := row.value;
      if verdict == Spent {
        codes.Delete(ac);
        return 403;
      }
      codes.MarkUsed(ac);
      if userId.None? {
        return 404;
      }
      if !verifySucceeds {
        return 500;
      }
      status := 200;
    }
  }
}
