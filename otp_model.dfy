/**
 * models/OTP.js: one-time password records. The email is lower-cased on the
 * way in, the code is a string, `verified` starts false and `attempts` at 0
 * with a ceiling of 3; `createdAt` is the store's clock at creation and the
 * store drops a record 300 seconds after it.
 */
module OtpModel {
  import opened Js

  const MaxAttempts: nat := 3
  const TtlSeconds: nat := 300

  datatype OtpRecord = OtpRecord(email: string, otp: string, createdAt: nat, verified: bool, attempts: nat)

  /** `OTP.create({ email, otp })`: the schema's lowercase setter and defaults applied. */
  function NewOtpRecord(email: string, otp: string, now: nat): (r: OtpRecord)
    ensures IsLowerCase(r.email) && |r.email| == |email|
    ensures forall i :: 0 <= i < |email| ==> r.email[i] == LowerChar(email[i])
    ensures r.otp == otp && r.createdAt == now
    ensures !r.verified && r.attempts == 0
  {
    OtpRecord(Lower(email), otp, now, false, 0)
  }

  /**
   * What every record in the store satisfies: emails lower-cased, attempts
   * within the schema's maximum, and createdAt strictly increasing in
   * insertion order and below the clock.
   */
  predicate WellKept(otps: seq<OtpRecord>, clock: nat) {
    InCreationOrder(otps) && forall i :: 0 <= i < |otps| ==> RecordKept(otps[i], clock)
  }

  /** createdAt strictly increases in insertion order. */
  predicate InCreationOrder(otps: seq<OtpRecord>) {
    forall i, j :: 0 <= i < j < |otps| ==> otps[i].createdAt < otps[j].createdAt
  }

  /** One record: created before the clock, attempts within the maximum, email lower-cased. */
  predicate RecordKept(r: OtpRecord, clock: nat) {
    r.createdAt < clock && r.attempts <= MaxAttempts && IsLowerCase(r.email)
  }

  /**
   * The (email, verified) index is not unique: nothing in the schema stops
   * two records for one email from coexisting, both unverified.
   */
  lemma IndexAllowsDuplicates(email: string, a: string, b: string)
    ensures var otps := [NewOtpRecord(email, a, 0), NewOtpRecord(email, b, 1)];
      WellKept(otps, 2) && otps[0].email == otps[1].email && !otps[0].verified && !otps[1].verified
  {
  }
}
