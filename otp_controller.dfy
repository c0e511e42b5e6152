/**
 * controllers/otpController.js: e-mail one-time passwords for registration
 * and password reset. Issuing replaces every record of the address by a
 * fresh one; verifying looks at the newest unverified record, deletes it once
 * its three attempts are used up, counts a wrong code and marks a right one;
 * registration and password reset then consume it.
 *
 * The collaborators are parameters: `code` is what crypto.randomInt(1000, 9999)
 * drew, `mailOk` whether sendEmail succeeded, `digest` what bcrypt.hash
 * produced and `decoded` the email claim jwt.verify found in a reset token
 * (None when the token does not verify).
 */
module OtpController {
  import opened Wrappers
  import opened Js
  import opened OtpModel
  import opened UserModel
  import opened Store

  // ---------------------------------------------------------------------------
  // The code and the address
  // ---------------------------------------------------------------------------

  /**
   * `crypto.randomInt(1000, 9999).toString()`: the upper bound is exclusive, so
   * the drawn number is in [1000, 9998] and its decimal form has four digits.
   */
  function GenerateOtp(n: nat): (r: string)
    requires 1000 <= n < 9999
    ensures |r| == 4 && AllDigits(r) && r[0] != '0'
    ensures DecimalValue(r) == n
  {
    DecimalLength(n, 3);
    DecimalRoundTrip(n);
    DecimalString(n)
  }

  /** Because the bound is exclusive, "9999" is never sent. */
  lemma OtpNeverAllNines(n: nat)
    requires 1000 <= n < 9999
    ensures GenerateOtp(n) != "9999"
  {
    assert DecimalValue("9") == 9 by { assert "9"[..0] == ""; }
    assert DecimalValue("99") == 99 by { assert "99"[..1] == "9"; }
    assert DecimalValue("999") == 999 by { assert "999"[..2] == "99"; }
    assert DecimalValue("9999") == 9999 by { assert "9999"[..3] == "999"; }
  }

  /** A character of the class [^\s@]. */
  predicate EmailChar(c: char) {
    !IsSpace(c) && c != '@'
  }

  /** A non-empty run of [^\s@]. */
  predicate EmailRun(s: string) {
    s != [] && forall k :: 0 <= k < |s| ==> EmailChar(s[k])
  }

  /** The strings /^[^\s@]+@[^\s@]+\.[^\s@]+$/ matches, read off the regular expression. */
  predicate MatchesEmailPattern(s: string) {
    exists i, j | 0 < i && i + 1 < j && j + 1 < |s| ::
      s[i] == '@' && s[j] == '.' && EmailRun(s[..i]) && EmailRun(s[i + 1..j]) && EmailRun(s[j + 1..])
  }

  /**
   * The email-format check as the controller's users meet it: no whitespace,
   * exactly one `@` with something before it, and a `.` in the part after it
   * with at least one character on each side.
   */
  predicate IsValidEmail(s: string)
    ensures IsValidEmail(s) ==> |s| >= 5
  {
    && (forall k :: 0 <= k < |s| ==> !IsSpace(s[k]))
    && Count(s, '@') == 1
    && exists i | 0 < i < |s| :: s[i] == '@' && DomainHasInnerDot(s[i + 1..])
  }

  predicate DomainHasInnerDot(d: string) {
    exists j | 0 < j < |d| - 1 :: d[j] == '.'
  }

  /** The check accepts exactly the strings the regular expression matches. */
  lemma EmailCheckIsPattern(s: string)
    ensures IsValidEmail(s) <==> MatchesEmailPattern(s)
  {
    if MatchesEmailPattern(s) {
      PatternPassesCheck(s);
    }
    if IsValidEmail(s) {
      CheckedMatchesPattern(s);
    }
  }

  lemma PatternPassesCheck(s: string)
    requires MatchesEmailPattern(s)
    ensures IsValidEmail(s)
  {
    var i, j :| 0 < i && i + 1 < j && j + 1 < |s| && s[i] == '@' && s[j] == '.'
      && EmailRun(s[..i]) && EmailRun(s[i + 1..j]) && EmailRun(s[j + 1..]);
    PatternHasNoSpace(s, i, j);
    PatternHasOneAt(s, i, j);
    var d := s[i + 1..];
    assert d[j - i - 1] == '.';
    assert DomainHasInnerDot(d);
  }

  /** The three runs of a match and its two separators are all free of whitespace. */
  lemma PatternHasNoSpace(s: string, i: nat, j: nat)
    requires 0 < i && i + 1 < j && j + 1 < |s| && s[i] == '@' && s[j] == '.'
    requires EmailRun(s[..i]) && EmailRun(s[i + 1..j]) && EmailRun(s[j + 1..])
    ensures forall k :: 0 <= k < |s| ==> !IsSpace(s[k])
  {
    var local, mid, tld := s[..i], s[i + 1..j], s[j + 1..];
    forall k | 0 <= k < |s| ensures !IsSpace(s[k]) {
      if k < i {
        assert s[k] == local[k];
      } else if i < k < j {
        assert s[k] == mid[k - i - 1];
      } else if j < k {
        assert s[k] == tld[k - j - 1];
      }
    }
  }

  /** The separating `@` of a match is its only one. */
  lemma PatternHasOneAt(s: string, i: nat, j: nat)
    requires 0 < i && i + 1 < j && j + 1 < |s| && s[i] == '@' && s[j] == '.'
    requires EmailRun(s[..i]) && EmailRun(s[i + 1..j]) && EmailRun(s[j + 1..])
    ensures Count(s, '@') == 1
  {
    var local, mid, tld := s[..i], s[i + 1..j], s[j + 1..];
    assert s[i + 1..] == mid + ['.'] + tld;
    NoAtInRun(local);
    NoAtInRun(mid);
    NoAtInRun(tld);
    CountAppend(mid, ['.'], '@');
    CountAppend(mid + ['.'], tld, '@');
    assert Count(['.'], '@') == 0 by { assert ['.'][1..] == []; }
    SplitCount(s, i, '@');
  }

  lemma CheckedMatchesPattern(s: string)
    requires IsValidEmail(s)
    ensures MatchesEmailPattern(s)
  {
    var i :| 0 < i < |s| && s[i] == '@' && DomainHasInnerDot(s[i + 1..]);
    var d := s[i + 1..];
    var jd :| 0 < jd < |d| - 1 && d[jd] == '.';
    var j := i + 1 + jd;
    assert s[j] == d[jd] == '.';
    OnlyAtIsSeparator(s, i);
    SeparatorsMakeMatch(s, i, j);
  }

  /** An `@` and a later `.`, each with a character on both sides, and nothing else in [\s@]: a match. */
  lemma SeparatorsMakeMatch(s: string, i: nat, j: nat)
    requires 0 < i && i + 1 < j && j + 1 < |s| && s[i] == '@' && s[j] == '.'
    requires forall k :: 0 <= k < |s| && k != i ==> EmailChar(s[k])
    ensures MatchesEmailPattern(s)
  {
    SliceIsRun(s, 0, i, i);
    SliceIsRun(s, i + 1, j, i);
    SliceIsRun(s, j + 1, |s|, i);
    assert s[0..i] == s[..i] && s[j + 1..|s|] == s[j + 1..];
  }

  /** In a checked address every character but the single `@` is in [^\s@]. */
  lemma OnlyAtIsSeparator(s: string, i: nat)
    requires i < |s| && s[i] == '@' && Count(s, '@') == 1
    requires forall k :: 0 <= k < |s| ==> !IsSpace(s[k])
    ensures forall k :: 0 <= k < |s| && k != i ==> EmailChar(s[k])
  {
    SplitCount(s, i, '@');
    AbsentWhenCountZero(s[..i], '@');
    AbsentWhenCountZero(s[i + 1..], '@');
    forall k | 0 <= k < |s| && k != i ensures s[k] != '@' {
      if k < i {
        assert s[k] == s[..i][k];
      } else {
        assert s[k] == s[i + 1..][k - i - 1];
      }
    }
  }

  /** A slice that avoids position `at`, in a string whose other characters are all in [^\s@], is a run. */
  lemma SliceIsRun(s: string, lo: nat, hi: nat, at: nat)
    requires lo < hi <= |s| && !(lo <= at < hi)
    requires forall k :: 0 <= k < |s| && k != at ==> EmailChar(s[k])
    ensures EmailRun(s[lo..hi])
  {
    forall k | 0 <= k < hi - lo ensures EmailChar(s[lo..hi][k]) {
      assert s[lo..hi][k] == s[lo + k];
    }
  }

  lemma {:induction false} NoAtInRun(s: string)
    requires EmailRun(s) || s == []
    ensures Count(s, '@') == 0
  {
    if s != [] {
      if |s| > 1 {
        assert EmailRun(s[1..]) by {
          forall k | 0 <= k < |s| - 1 ensures EmailChar(s[1..][k]) {
            assert s[1..][k] == s[k + 1];
          }
        }
      }
      NoAtInRun(s[1..]);
    }
  }

  lemma {:induction false} AbsentWhenCountZero(s: string, c: char)
    requires Count(s, c) == 0
    ensures forall k :: 0 <= k < |s| ==> s[k] != c
  {
    if s != [] {
      AbsentWhenCountZero(s[1..], c);
      forall k | 0 < k < |s| ensures s[k] != c {
        assert s[k] == s[1..][k - 1];
      }
    }
  }

  /** Splitting a string around position i splits the count. */
  lemma SplitCount(s: string, i: nat, c: char)
    requires i < |s| && s[i] == c
    ensures Count(s, c) == Count(s[..i], c) + 1 + Count(s[i + 1..], c)
  {
    assert s == s[..i] + ([s[i]] + s[i + 1..]);
    CountAppend(s[..i], [s[i]] + s[i + 1..], c);
    assert ([s[i]] + s[i + 1..])[1..] == s[i + 1..];
  }

  // ---------------------------------------------------------------------------
  // Issuing
  // ---------------------------------------------------------------------------

  /** The records of one address, in store order: `OTP.find({ email })`. */
  function RecordsFor(otps: seq<OtpRecord>, email: string): (r: seq<OtpRecord>)
    ensures |r| <= |otps|
    ensures forall x :: x in r ==> x in otps && x.email == email
  {
    if otps == [] then []
    else (if otps[0].email == email then [otps[0]] else []) + RecordsFor(otps[1..], email)
  }

  lemma {:induction false} RecordsForAppend(a: seq<OtpRecord>, b: seq<OtpRecord>, email: string)
    ensures RecordsFor(a + b, email) == RecordsFor(a, email) + RecordsFor(b, email)
  {
    if a == [] {
      assert a + b == b;
    } else {
      assert (a + b)[1..] == a[1..] + b;
      RecordsForAppend(a[1..], b, email);
    }
  }

  /** `OTP.deleteMany({ email })`: the other records stay, in their order. */
  function DeleteAllFor(otps: seq<OtpRecord>, email: string): (r: seq<OtpRecord>)
    ensures |r| <= |otps|
    ensures forall x :: x in r ==> x in otps && x.email != email
  {
    if otps == [] then []
    else (if otps[0].email == email then [] else [otps[0]]) + DeleteAllFor(otps[1..], email)
  }

  /** Deleting an address's records removes all of them and touches no other address. */
  lemma {:induction false} DeleteAllForFrames(otps: seq<OtpRecord>, email: string, other: string)
    ensures RecordsFor(DeleteAllFor(otps, email), email) == []
    ensures other != email ==> RecordsFor(DeleteAllFor(otps, email), other) == RecordsFor(otps, other)
  {
    if otps != [] {
      DeleteAllForFrames(otps[1..], email, other);
      var head := if otps[0].email == email then [] else [otps[0]];
      RecordsForAppend(head, DeleteAllFor(otps[1..], email), email);
      RecordsForAppend(head, DeleteAllFor(otps[1..], email), other);
      assert head == [] || head[1..] == [];
    }
  }

  /** Every record of a sub-collection comes from a well-kept one. */
  lemma MembersKept(otps: seq<OtpRecord>, r: seq<OtpRecord>, clock: nat)
    requires OtpModel.WellKept(otps, clock)
    requires forall x :: x in r ==> x in otps
    ensures forall i :: 0 <= i < |r| ==> RecordKept(r[i], clock)
  {
    forall i | 0 <= i < |r| ensures RecordKept(r[i], clock) {
      assert r[i] in otps;
    }
  }

  /** A deletion keeps only records of the collection, so a lower bound on createdAt survives it. */
  lemma {:induction false} DeleteAllForKeepsBound(otps: seq<OtpRecord>, email: string, t: nat)
    requires forall k :: 0 <= k < |otps| ==> t < otps[k].createdAt
    ensures forall k :: 0 <= k < |DeleteAllFor(otps, email)| ==> t < DeleteAllFor(otps, email)[k].createdAt
  {
    if otps != [] {
      DeleteAllForKeepsBound(otps[1..], email, t);
    }
  }

  /** Records kept by a deletion keep their relative order. */
  lemma {:induction false} DeleteAllForKeepsOrder(otps: seq<OtpRecord>, email: string)
    requires InCreationOrder(otps)
    ensures InCreationOrder(DeleteAllFor(otps, email))
  {
    if otps != [] {
      var tail := otps[1..];
      assert InCreationOrder(tail);
      DeleteAllForKeepsOrder(tail, email);
      var rest := DeleteAllFor(tail, email);
      if otps[0].email == email {
        assert DeleteAllFor(otps, email) == rest;
      } else {
        forall k | 0 <= k < |tail| ensures otps[0].createdAt < tail[k].createdAt {
          assert tail[k] == otps[k + 1];
        }
        DeleteAllForKeepsBound(tail, email, otps[0].createdAt);
        assert DeleteAllFor(otps, email) == [otps[0]] + rest;
        PrependKeepsOrder(otps[0], rest);
      }
    }
  }

  /** A record older than every record of an ordered collection can go in front of it. */
  lemma PrependKeepsOrder(x: OtpRecord, rest: seq<OtpRecord>)
    requires InCreationOrder(rest)
    requires forall k :: 0 <= k < |rest| ==> x.createdAt < rest[k].createdAt
    ensures InCreationOrder([x] + rest)
  {
    var r := [x] + rest;
    forall i, j | 0 <= i < j < |r| ensures r[i].createdAt < r[j].createdAt {
      assert r[j] == rest[j - 1];
      if 0 < i {
        assert r[i] == rest[i - 1];
      }
    }
  }

  /** Deleting every record of an address keeps the collection well kept. */
  lemma DeleteAllForKeepsWellKept(otps: seq<OtpRecord>, email: string, clock: nat)
    requires OtpModel.WellKept(otps, clock)
    ensures OtpModel.WellKept(DeleteAllFor(otps, email), clock)
  {
    DeleteAllForKeepsOrder(otps, email);
    MembersKept(otps, DeleteAllFor(otps, email), clock);
  }

  /** Issuing: every record of the (lower-cased) address replaced by one fresh record at the end. */
  function Issue(otps: seq<OtpRecord>, email: string, otp: string, now: nat): (r: seq<OtpRecord>)
    ensures 1 <= |r| <= |otps| + 1 && r[|r| - 1] == NewOtpRecord(email, otp, now)
    ensures forall i :: 0 <= i < |r| - 1 ==> r[i] in otps && r[i].email != email
  {
    DeleteAllFor(otps, email) + [NewOtpRecord(email, otp, now)]
  }

  /**
   * After issuing, the address has exactly one record, unverified with no
   * attempts and holding the new code, and every other address keeps its records.
   */
  lemma {:induction false} IssueLeavesOneRecord(otps: seq<OtpRecord>, email: string, otp: string, now: nat, other: string)
    requires IsLowerCase(email)
    ensures RecordsFor(Issue(otps, email, otp, now), email) == [OtpRecord(email, otp, now, false, 0)]
    ensures other != email ==> RecordsFor(Issue(otps, email, otp, now), other) == RecordsFor(otps, other)
  {
    LowerOfLowerCase(email);
    var issued := NewOtpRecord(email, otp, now);
    DeleteAllForFrames(otps, email, other);
    RecordsForAppend(DeleteAllFor(otps, email), [issued], email);
    RecordsForAppend(DeleteAllFor(otps, email), [issued], other);
    assert [issued][1..] == [];
  }

  /** Issuing twice still leaves a single record, the second one. */
  lemma IssueTwiceLeavesOne(otps: seq<OtpRecord>, email: string, a: string, b: string, t1: nat, t2: nat)
    requires IsLowerCase(email)
    ensures RecordsFor(Issue(Issue(otps, email, a, t1), email, b, t2), email) == [OtpRecord(email, b, t2, false, 0)]
  {
    IssueLeavesOneRecord(Issue(otps, email, a, t1), email, b, t2, email);
  }

  /** Issuing at the current clock keeps the store's invariant with the clock advanced. */
  lemma IssueKeepsWellKept(otps: seq<OtpRecord>, email: string, otp: string, clock: nat)
    requires OtpModel.WellKept(otps, clock)
    ensures OtpModel.WellKept(Issue(otps, email, otp, clock), clock + 1)
  {
    DeleteAllForKeepsWellKept(otps, email, clock);
    var kept := DeleteAllFor(otps, email);
    assert OtpModel.WellKept(kept, clock + 1);
    var r := Issue(otps, email, otp, clock);
    forall i, j | 0 <= i < j < |r| ensures r[i].createdAt < r[j].createdAt {
      if j == |kept| {
        assert r[i] == kept[i];
      }
    }
  }

  // ---------------------------------------------------------------------------
  // Verifying
  // ---------------------------------------------------------------------------

  predicate Live(r: OtpRecord, email: string) {
    r.email == email && !r.verified
  }

  /**
   * `OTP.findOne({ email, verified: false }).sort({ createdAt: -1 })`: the
   * position of the last unverified record of the address.
   */
  function NewestLive(otps: seq<OtpRecord>, email: string): (r: Option<nat>)
    ensures r.Some? ==> r.value < |otps| && Live(otps[r.value], email)
    ensures r.Some? ==> forall k :: r.value < k < |otps| ==> !Live(otps[k], email)
    ensures r.None? <==> forall k :: 0 <= k < |otps| ==> !Live(otps[k], email)
  {
    if otps == [] then None
    else if Live(otps[|otps| - 1], email) then Some(|otps| - 1)
    else NewestLive(otps[..|otps| - 1], email)
  }

  /** In a well-kept store the last unverified record is the one created last. */
  lemma NewestLiveIsNewest(otps: seq<OtpRecord>, email: string, clock: nat, k: nat)
    requires OtpModel.WellKept(otps, clock) && NewestLive(otps, email).Some?
    requires k < |otps| && Live(otps[k], email)
    ensures otps[k].createdAt <= otps[NewestLive(otps, email).value].createdAt
  {
  }

  /** `OTP.deleteOne({ _id })` on the record at position k. */
  function RemoveAt(otps: seq<OtpRecord>, k: nat): (r: seq<OtpRecord>)
    requires k < |otps|
    ensures |r| == |otps| - 1
    ensures forall i :: 0 <= i < k ==> r[i] == otps[i]
    ensures forall i :: k <= i < |r| ==> r[i] == otps[i + 1]
  {
    otps[..k] + otps[k + 1..]
  }

  lemma RemoveAtKeepsWellKept(otps: seq<OtpRecord>, k: nat, clock: nat)
    requires OtpModel.WellKept(otps, clock) && k < |otps|
    ensures OtpModel.WellKept(RemoveAt(otps, k), clock)
  {
    var r := RemoveAt(otps, k);
    forall i, j | 0 <= i < j < |r| ensures r[i].createdAt < r[j].createdAt {
      var i' := if i < k then i else i + 1;
      var j' := if j < k then j else j + 1;
      assert r[i] == otps[i'] && r[j] == otps[j'];
    }
  }

  /** What one verification attempt finds. */
  datatype VerifyResult = NoLiveRecord | AttemptsExhausted | WrongCode(remaining: nat) | CodeAccepted(index: nat)

  /**
   * controllers/otpController.js:100-129 (and 300-329): the verdict on `code`
   * for the address and the store afterwards.
   */
  function VerifyStep(otps: seq<OtpRecord>, email: string, code: string): (r: (VerifyResult, seq<OtpRecord>))
    ensures r.0.CodeAccepted? ==> r.0.index < |r.1| == |otps|
    ensures r.0 == NoLiveRecord <==> NewestLive(otps, email).None?
    ensures r.0 == NoLiveRecord ==> r.1 == otps
    ensures r.0 == AttemptsExhausted ==> |r.1| == |otps| - 1
    ensures r.0.WrongCode? ==> |r.1| == |otps| && r.0.remaining < MaxAttempts
    ensures r.0.CodeAccepted? ==>
      && NewestLive(otps, email) == Some(r.0.index) && otps[r.0.index].otp == code
      && r.1[r.0.index] == otps[r.0.index].(verified := true)
      && forall i :: 0 <= i < |otps| && i != r.0.index ==> r.1[i] == otps[i]
  {
    match NewestLive(otps, email)
    case None => (NoLiveRecord, otps)
    case Some(k) =>
      if otps[k].attempts >= MaxAttempts then (AttemptsExhausted, RemoveAt(otps, k))
      else if otps[k].otp != code then
        (WrongCode(MaxAttempts - (otps[k].attempts + 1)), otps[k := otps[k].(attempts := otps[k].attempts + 1)])
      else (CodeAccepted(k), otps[k := otps[k].(verified := true)])
  }

  /** Without an unverified record for the address nothing changes. */
  lemma NoRecordChangesNothing(otps: seq<OtpRecord>, email: string, code: string)
    requires forall k :: 0 <= k < |otps| ==> !Live(otps[k], email)
    ensures VerifyStep(otps, email, code) == (NoLiveRecord, otps)
  {
  }

  /** A record whose attempts are used up is deleted before the code is looked at, right code or not. */
  lemma ExhaustedBeforeCompare(otps: seq<OtpRecord>, email: string, code: string)
    requires NewestLive(otps, email).Some?
    requires otps[NewestLive(otps, email).value].attempts >= MaxAttempts
    ensures VerifyStep(otps, email, code).0 == AttemptsExhausted
    ensures VerifyStep(otps, email, code).1 == RemoveAt(otps, NewestLive(otps, email).value)
  {
  }

  /**
   * A wrong code costs exactly one attempt of that record only, and the
   * reported remainder is 3 minus the attempts now used.
   */
  lemma WrongCodeCountsOne(otps: seq<OtpRecord>, email: string, code: string)
    requires VerifyStep(otps, email, code).0.WrongCode?
    ensures var k := NewestLive(otps, email).value;
      var after := VerifyStep(otps, email, code).1;
      && |after| == |otps| && after[k].attempts == otps[k].attempts + 1
      && VerifyStep(otps, email, code).0.remaining == MaxAttempts - after[k].attempts
      && after[k] == otps[k].(attempts := otps[k].attempts + 1)
      && (forall i :: 0 <= i < |otps| && i != k ==> after[i] == otps[i])
      && otps[k].otp != code
  {
  }

  /** A right code marks the record verified and changes nothing else; the record is never picked again. */
  lemma AcceptedIsNotPickedAgain(otps: seq<OtpRecord>, email: string, code: string, code2: string)
    requires VerifyStep(otps, email, code).0.CodeAccepted?
    ensures var k := VerifyStep(otps, email, code).0.index;
      var after := VerifyStep(otps, email, code).1;
      && k < |otps| && otps[k].otp == code && after == otps[k := otps[k].(verified := true)]
      && NewestLive(after, email) != Some(k)
      && VerifyStep(after, email, code2).0 != CodeAccepted(k)
  {
  }

  /** Verification keeps the store's invariant: in particular attempts never pass 3. */
  lemma VerifyKeepsWellKept(otps: seq<OtpRecord>, email: string, code: string, clock: nat)
    requires OtpModel.WellKept(otps, clock)
    ensures OtpModel.WellKept(VerifyStep(otps, email, code).1, clock)
  {
    match NewestLive(otps, email)
    case None =>
    case Some(k) =>
      if otps[k].attempts >= MaxAttempts {
        RemoveAtKeepsWellKept(otps, k, clock);
      }
  }

  /** The address's only record is the last one and is still unverified. */
  predicate OnlyLiveAtEnd(otps: seq<OtpRecord>, email: string) {
    && otps != [] && Live(otps[|otps| - 1], email)
    && forall k :: 0 <= k < |otps| - 1 ==> otps[k].email != email
  }

  /** One try against the address's only record. */
  lemma TryOnlyRecord(otps: seq<OtpRecord>, email: string, code: string)
    requires OnlyLiveAtEnd(otps, email)
    ensures var n := |otps| - 1;
      var r := otps[n];
      VerifyStep(otps, email, code) ==
        if r.attempts >= MaxAttempts then (AttemptsExhausted, otps[..n])
        else if r.otp != code then (WrongCode(MaxAttempts - (r.attempts + 1)), otps[n := r.(attempts := r.attempts + 1)])
        else (CodeAccepted(n), otps[n := r.(verified := true)])
    ensures var n := |otps| - 1;
      otps[n].attempts < MaxAttempts && otps[n].otp != code ==>
        OnlyLiveAtEnd(VerifyStep(otps, email, code).1, email)
  {
    var n := |otps| - 1;
    assert NewestLive(otps, email) == Some(n);
    assert RemoveAt(otps, n) == otps[..n];
  }

  /**
   * From a freshly issued record, three wrong codes report 2, 1 and 0 attempts
   * remaining; the fourth try is refused even with the right code and deletes
   * the record; after that nothing is left to verify.
   */
  lemma ThreeStrikes(otps: seq<OtpRecord>, email: string, otp: string, now: nat, wrong: string)
    requires IsLowerCase(email) && wrong != otp
    ensures var s0 := Issue(otps, email, otp, now);
      var v1 := VerifyStep(s0, email, wrong);
      var v2 := VerifyStep(v1.1, email, wrong);
      var v3 := VerifyStep(v2.1, email, wrong);
      var v4 := VerifyStep(v3.1, email, otp);
      && v1.0 == WrongCode(2) && v2.0 == WrongCode(1) && v3.0 == WrongCode(0)
      && v4.0 == AttemptsExhausted
      && VerifyStep(v4.1, email, otp).0 == NoLiveRecord
  {
    LowerOfLowerCase(email);
    var kept := DeleteAllFor(otps, email);
    var s0 := Issue(otps, email, otp, now);
    assert s0 == kept + [OtpRecord(email, otp, now, false, 0)];
    assert OnlyLiveAtEnd(s0, email);
    TryOnlyRecord(s0, email, wrong);
    var s1 := VerifyStep(s0, email, wrong).1;
    assert s1[|kept|].attempts == 1;
    TryOnlyRecord(s1, email, wrong);
    var s2 := VerifyStep(s1, email, wrong).1;
    assert s2[|kept|].attempts == 2;
    TryOnlyRecord(s2, email, wrong);
    var s3 := VerifyStep(s2, email, wrong).1;
    assert s3[|kept|].attempts == 3;
    TryOnlyRecord(s3, email, otp);
    var s4 := VerifyStep(s3, email, otp).1;
    assert s4 == kept;
    NoRecordChangesNothing(s4, email, otp);
  }

  // ---------------------------------------------------------------------------
  // Messages
  // ---------------------------------------------------------------------------

  /** An e-mail handed to sendEmail. */
  datatype Mail = Mail(to: string, subject: string, message: string)

  const RegistrationSubject := "Your OTP for Account Registration"
  const ResendSubject := "Your OTP for Account Registration (Resent)"
  const ResetSubject := "Your OTP for Password Reset"
  const RegistrationCodeLine := ",\n\nYour OTP for account registration is: "
  const ResendCodeLine := "Your new OTP for account registration is: "
  const ResetCodeLine := ",\n\nYour OTP for password reset is: "
  const ValidityNote :=
    "\n\n"
    + "This OTP is valid for 5 minutes only. Please "
    + "do not share this OTP with anyone.\n\n"
  const RegistrationFooter :=
    ValidityNote
    + "If you didn't request this OTP, please "
    + "ignore this email.\n\n"
    + "Best regards,\n"
    + "Your App Team"
  const ResetFooter :=
    ValidityNote
    + "If you didn't request this password reset, "
    + "please ignore this email and secure your "
    + "account.\n\n"
    + "Best regards,\n"
    + "Your App Team"

  function RegistrationMessage(name: string, otp: string): string {
    "Dear " + (if name != "" then name else "User") + RegistrationCodeLine + otp + RegistrationFooter
  }

  function ResendMessage(otp: string): string {
    ResendCodeLine + otp + RegistrationFooter
  }

  function ResetMessage(name: string, otp: string): string {
    "Dear " + name + ResetCodeLine + otp + ResetFooter
  }

  /** Every mail quotes the code it announces. */
  lemma MailsCarryCode(name: string, otp: string)
    ensures Contains(RegistrationMessage(name, otp), otp)
    ensures Contains(ResendMessage(otp), otp)
    ensures Contains(ResetMessage(name, otp), otp)
  {
    ContainsMiddle("Dear " + (if name != "" then name else "User") + RegistrationCodeLine, otp, RegistrationFooter);
    ContainsMiddle(ResendCodeLine, otp, RegistrationFooter);
    ContainsMiddle("Dear " + name + ResetCodeLine, otp, ResetFooter);
  }

  const InvalidEmail := "Invalid email format"
  const AlreadyRegistered := "Email already registered"
  const SendFailed := "Failed to send OTP. Please try again."
  const ResendFailed := "Failed to resend OTP. Please try again."
  const EmailRequired := "Email is required"
  const NoAccount := "No account found with this email"
  const AllFieldsRequired := "All fields are required"
  const ShortPassword := "Password must be at least 6 characters long"
  const OtpNotFound :=
    "OTP not found or expired. Please request a "
    + "new OTP."
  const TooManyAttempts :=
    "Maximum verification attempts exceeded. "
    + "Please request a new OTP."
  const RegistrationFailed := "Registration failed. Please try again."
  const EmailAndOtpRequired := "Email and OTP are required"
  const TokenAndPasswordRequired := "Reset token and new password are required"
  const BadResetToken := "Invalid or expired reset token. Please try again."
  const UserNotFound := "User not found"

  /** `Invalid OTP. ${remainingAttempts} attempts remaining.` */
  function InvalidOtp(remaining: nat): string {
    "Invalid OTP. " + DecimalString(remaining) + " attempts remaining."
  }

  /** The message of a failed verification, or None when the code was accepted. */
  function VerifyFailure(v: VerifyResult): (r: Option<string>)
    ensures r.None? <==> v.CodeAccepted?
  {
    match v
    case NoLiveRecord => Some(OtpNotFound)
    case AttemptsExhausted => Some(TooManyAttempts)
    case WrongCode(n) => Some(InvalidOtp(n))
    case CodeAccepted(_) => None
  }

  /** What a handler answers. Rejected covers 400, 401 and 404; Failed is a 500. */
  datatype OtpOutcome =
    | OtpSent(message: string, to: string, mail: Mail)
    | Rejected(status: nat, error: string)
    | Failed(error: string)
    | AccountCreated(user: PublicUser)
    | ResetAllowed(email: string)
    | PasswordChanged

  // ---------------------------------------------------------------------------
  // Handlers
  // ---------------------------------------------------------------------------

  /** Replaces every record of `email` (already lower-cased) by one holding a fresh code. */
  method IssueOtp(db: Db, email: string, code: nat) returns (otp: string)
    requires db.Valid() && 1000 <= code < 9999
    modifies db
    ensures db.Valid()
    ensures otp == GenerateOtp(code)
    ensures db.otps == Issue(old(db.otps), email, otp, old(db.clock)) && db.clock == old(db.clock) + 1
    ensures db.users == old(db.users) && db.quizzes == old(db.quizzes) && db.nextId == old(db.nextId)
  {
    IssueKeepsWellKept(db.otps, email, GenerateOtp(code), db.clock);
    db.otps := DeleteAllFor(db.otps, email);
    otp := GenerateOtp(code);
    db.otps := db.otps + [NewOtpRecord(email, otp, db.clock)];
    db.clock := db.clock + 1;
  }

  /** sendOTP, controllers/otpController.js:14-70. */
  method SendOtp(db: Db, email: string, name: string, code: nat, mailOk: bool) returns (r: OtpOutcome)
    requires db.Valid() && 1000 <= code < 9999
    modifies db
    ensures db.Valid()
    ensures !IsValidEmail(email) ==> r == Rejected(400, InvalidEmail) && unchanged(db)
    ensures IsValidEmail(email) && FindByEmail(old(db.users), Lower(email)).Some? ==> r == Rejected(400, AlreadyRegistered) && unchanged(db)
    ensures IsValidEmail(email) && FindByEmail(old(db.users), Lower(email)).None? ==>
      && db.otps == Issue(old(db.otps), Lower(email), GenerateOtp(code), old(db.clock))
      && db.users == old(db.users) && db.quizzes == old(db.quizzes)
      && db.clock == old(db.clock) + 1 && db.nextId == old(db.nextId)
      && r == (if mailOk then OtpSent("OTP sent successfully to your email", Lower(email),
                                       Mail(Lower(email), RegistrationSubject, RegistrationMessage(name, GenerateOtp(code))))
               else Failed(SendFailed))
  {
    if !IsValidEmail(email) {
      return Rejected(400, InvalidEmail);
    }
    var lower := Lower(email);
    if FindByEmail(db.users, lower).Some? {
      return Rejected(400, AlreadyRegistered);
    }
    var otp := IssueOtp(db, lower, code);
    var mail := Mail(lower, RegistrationSubject, RegistrationMessage(name, otp));
    if !mailOk {
      return Failed(SendFailed);
    }
    return OtpSent("OTP sent successfully to your email", lower, mail);
  }

  /** resendOTP, controllers/otpController.js:168-226: sendOTP with a presence check and its own mail. */
  method ResendOtp(db: Db, email: string, code: nat, mailOk: bool) returns (r: OtpOutcome)
    requires db.Valid() && 1000 <= code < 9999
    modifies db
    ensures db.Valid()
    ensures email == "" ==> r == Rejected(400, EmailRequired) && unchanged(db)
    ensures email != "" && !IsValidEmail(email) ==> r == Rejected(400, InvalidEmail) && unchanged(db)
    ensures IsValidEmail(email) && FindByEmail(old(db.users), Lower(email)).Some? ==> r == Rejected(400, AlreadyRegistered) && unchanged(db)
    ensures IsValidEmail(email) && FindByEmail(old(db.users), Lower(email)).None? ==>
      && db.otps == Issue(old(db.otps), Lower(email), GenerateOtp(code), old(db.clock))
      && db.users == old(db.users) && db.quizzes == old(db.quizzes)
      && db.clock == old(db.clock) + 1 && db.nextId == old(db.nextId)
      && r == (if mailOk then OtpSent("OTP resent successfully to your email", Lower(email),
                                       Mail(Lower(email), ResendSubject, ResendMessage(GenerateOtp(code))))
               else Failed(ResendFailed))
  {
    if email == "" {
      return Rejected(400, EmailRequired);
    }
    if !IsValidEmail(email) {
      return Rejected(400, InvalidEmail);
    }
    var lower := Lower(email);
    if FindByEmail(db.users, lower).Some? {
      return Rejected(400, AlreadyRegistered);
    }
    var otp := IssueOtp(db, lower, code);
    var mail := Mail(lower, ResendSubject, ResendMessage(otp));
    if !mailOk {
      return Failed(ResendFailed);
    }
    return OtpSent("OTP resent successfully to your email", lower, mail);
  }

  /** sendPasswordResetOTP, controllers/otpController.js:231-287: the account must exist. */
  method SendPasswordResetOtp(db: Db, email: string, code: nat, mailOk: bool) returns (r: OtpOutcome)
    requires db.Valid() && 1000 <= code < 9999
    modifies db
    ensures db.Valid()
    ensures !IsValidEmail(email) ==> r == Rejected(400, InvalidEmail) && unchanged(db)
    ensures IsValidEmail(email) && FindByEmail(old(db.users), Lower(email)).None? ==> r == Rejected(404, NoAccount) && unchanged(db)
    ensures IsValidEmail(email) && FindByEmail(old(db.users), Lower(email)).Some? ==>
      var user := old(db.users)[FindByEmail(old(db.users), Lower(email)).value];
      && db.otps == Issue(old(db.otps), Lower(email), GenerateOtp(code), old(db.clock))
      && db.users == old(db.users) && db.quizzes == old(db.quizzes)
      && db.clock == old(db.clock) + 1 && db.nextId == old(db.nextId)
      && r == (if mailOk then OtpSent("Password reset OTP sent successfully to your email", Lower(email),
                                       Mail(Lower(email), ResetSubject, ResetMessage(user.name, GenerateOtp(code))))
               else Failed(SendFailed))
  {
    if !IsValidEmail(email) {
      return Rejected(400, InvalidEmail);
    }
    var lower := Lower(email);
    var found := FindByEmail(db.users, lower);
    if found.None? {
      return Rejected(404, NoAccount);
    }
    var user := db.users[found.value];
    var otp := IssueOtp(db, lower, code);
    var mail := Mail(lower, ResetSubject, ResetMessage(user.name, otp));
    if !mailOk {
      return Failed(SendFailed);
    }
    return OtpSent("Password reset OTP sent successfully to your email", lower, mail);
  }

  /** The shared verification step of registerWithOTP and verifyPasswordResetOTP. */
  method VerifyLatestOtp(db: Db, email: string, code: string) returns (v: VerifyResult)
    requires db.Valid()
    modifies db
    ensures db.Valid()
    ensures (v, db.otps) == VerifyStep(old(db.otps), email, code)
    ensures db.users == old(db.users) && db.quizzes == old(db.quizzes)
    ensures db.clock == old(db.clock) && db.nextId == old(db.nextId)
  {
    VerifyKeepsWellKept(db.otps, email, code, db.clock);
    var found := NewestLive(db.otps, email);
    if found.None? {
      return NoLiveRecord;
    }
    var k := found.value;
    var record := db.otps[k];
    if record.attempts >= MaxAttempts {
      db.otps := RemoveAt(db.otps, k);
      return AttemptsExhausted;
    }
    if record.otp != code {
      record := record.(attempts := record.attempts + 1);
      db.otps := db.otps[k := record];
      return WrongCode(MaxAttempts - record.attempts);
    }
    record := record.(verified := true);
    db.otps := db.otps[k := record];
    return CodeAccepted(k);
  }

  /** The account registerWithOTP builds once the code is accepted. */
  function NewAccount(id: nat, name: string, email: string, phone: string, digest: string): (u: User)
    ensures u.id == id && u.email == Lower(email) && u.password == digest && u.quizAttempts == []
    ensures HasRequiredFields(u) <==> Trim(name) != "" && email != "" && Trim(phone) != "" && digest != ""
  {
    User(id, Trim(name), Lower(email), Trim(phone), digest, [])
  }

  /** Every field of the registration form is present and the code is truthy. */
  predicate AllGiven(name: string, email: string, phone: string, password: string, otp: Value) {
    name != "" && email != "" && phone != "" && password != "" && Truthy(otp)
  }

  /**
   * registerWithOTP, controllers/otpController.js:73-165. The code arrives as
   * any JSON value and is compared by its string form. After a right code the
   * record is marked verified before the account is built; an account whose
   * trimmed name or phone is empty fails the schema, and the verified record
   * then stays behind.
   */
  method RegisterWithOtp(db: Db, name: string, email: string, phone: string, password: string, otp: Value,
                         digest: string, numeral: real -> string) returns (r: OtpOutcome)
    requires db.Valid() && digest != ""
    modifies db
    ensures db.Valid()
    ensures !AllGiven(name, email, phone, password, otp) ==> r == Rejected(400, AllFieldsRequired) && unchanged(db)
    ensures AllGiven(name, email, phone, password, otp) && !IsValidEmail(email) ==>
      r == Rejected(400, InvalidEmail) && unchanged(db)
    ensures AllGiven(name, email, phone, password, otp) && IsValidEmail(email) && |password| < 6 ==>
      r == Rejected(400, ShortPassword) && unchanged(db)
    ensures AllGiven(name, email, phone, password, otp) && IsValidEmail(email) && |password| >= 6
            && FindByEmail(old(db.users), Lower(email)).Some? ==>
      r == Rejected(400, AlreadyRegistered) && unchanged(db)
    ensures AllGiven(name, email, phone, password, otp) && IsValidEmail(email) && |password| >= 6
            && FindByEmail(old(db.users), Lower(email)).None? ==>
      var v := VerifyStep(old(db.otps), Lower(email), ToText(otp, numeral));
      && (!v.0.CodeAccepted? ==> r == Rejected(400, VerifyFailure(v.0).value) && db.otps == v.1)
      && (v.0.CodeAccepted? && !r.AccountCreated? ==> r == Failed(RegistrationFailed) && db.otps == v.1)
      && (v.0.CodeAccepted? ==>
            (r.AccountCreated? <==> HasRequiredFields(NewAccount(old(db.nextId), name, email, phone, digest))))
    ensures r.AccountCreated? ==>
      var v := VerifyStep(old(db.otps), Lower(email), ToText(otp, numeral));
      && IsValidEmail(email) && |password| >= 6 && FindByEmail(old(db.users), Lower(email)).None?
      && v.0.CodeAccepted? && db.otps == RemoveAt(v.1, v.0.index)
      && db.users == old(db.users) + [NewAccount(old(db.nextId), name, email, phone, digest)]
      && r.user == ToPublic(NewAccount(old(db.nextId), name, email, phone, digest))
      && db.nextId == old(db.nextId) + 1
    ensures !r.AccountCreated? ==> db.users == old(db.users) && db.nextId == old(db.nextId)
    ensures db.quizzes == old(db.quizzes) && db.clock == old(db.clock)
  {
    if !AllGiven(name, email, phone, password, otp) {
      return Rejected(400, AllFieldsRequired);
    }
    if !IsValidEmail(email) {
      return Rejected(400, InvalidEmail);
    }
    if |password| < 6 {
      return Rejected(400, ShortPassword);
    }
    var lower := Lower(email);
    if FindByEmail(db.users, lower).Some? {
      return Rejected(400, AlreadyRegistered);
    }
    var v := VerifyLatestOtp(db, lower, ToText(otp, numeral));
    var failure := VerifyFailure(v);
    if failure.Some? {
      return Rejected(400, failure.value);
    }
    var user := NewAccount(db.nextId, name, email, phone, digest);
    if !HasRequiredFields(user) {
      return Failed(RegistrationFailed);
    }
    AcceptedIsNotPickedAgain(old(db.otps), lower, ToText(otp, numeral), "");
    DeleteOtp(db, v.index);
    db.InsertUser(user);
    return AccountCreated(ToPublic(user));
  }

  /** verifyPasswordResetOTP, controllers/otpController.js:290-348: no format or account check. */
  method VerifyPasswordResetOtp(db: Db, email: string, otp: Value, numeral: real -> string) returns (r: OtpOutcome)
    requires db.Valid()
    modifies db
    ensures db.Valid()
    ensures email == "" || !Truthy(otp) ==> r == Rejected(400, EmailAndOtpRequired) && unchanged(db)
    ensures email != "" && Truthy(otp) ==>
      var v := VerifyStep(old(db.otps), Lower(email), ToText(otp, numeral));
      && db.otps == v.1
      && r == (if v.0.CodeAccepted? then ResetAllowed(Lower(email)) else Rejected(400, VerifyFailure(v.0).value))
    ensures db.users == old(db.users) && db.quizzes == old(db.quizzes)
    ensures db.clock == old(db.clock) && db.nextId == old(db.nextId)
  {
    if email == "" || !Truthy(otp) {
      return Rejected(400, EmailAndOtpRequired);
    }
    var lower := Lower(email);
    var v := VerifyLatestOtp(db, lower, ToText(otp, numeral));
    var failure := VerifyFailure(v);
    if failure.Some? {
      return Rejected(400, failure.value);
    }
    return ResetAllowed(lower);
  }

  /**
   * resetPassword, controllers/otpController.js:351-397: the token's email
   * claim is used as it is; the user's hash is replaced and every record of
   * that email deleted.
   */
  method ResetPassword(db: Db, resetToken: string, newPassword: string, decoded: Option<string>, digest: string)
    returns (r: OtpOutcome)
    requires db.Valid() && digest != ""
    modifies db
    ensures db.Valid()
    ensures resetToken == "" || newPassword == "" ==> r == Rejected(400, TokenAndPasswordRequired) && unchanged(db)
    ensures resetToken != "" && newPassword != "" && |newPassword| < 6 ==> r == Rejected(400, ShortPassword) && unchanged(db)
    ensures resetToken != "" && |newPassword| >= 6 && decoded.None? ==> r == Rejected(401, BadResetToken) && unchanged(db)
    ensures resetToken != "" && |newPassword| >= 6 && decoded.Some? ==>
      match FindByEmail(old(db.users), decoded.value)
      case None => r == Rejected(404, UserNotFound) && unchanged(db)
      case Some(k) =>
        && r == PasswordChanged
        && db.users == old(db.users)[k := old(db.users)[k].(password := digest)]
        && db.otps == DeleteAllFor(old(db.otps), decoded.value)
        && db.quizzes == old(db.quizzes)
        && db.clock == old(db.clock) && db.nextId == old(db.nextId)
  {
    if resetToken == "" || newPassword == "" {
      return Rejected(400, TokenAndPasswordRequired);
    }
    if |newPassword| < 6 {
      return Rejected(400, ShortPassword);
    }
    if decoded.None? {
      return Rejected(401, BadResetToken);
    }
    var email := decoded.value;
    var found := FindByEmail(db.users, email);
    if found.None? {
      return Rejected(404, UserNotFound);
    }
    var k := found.value;
    db.users := db.users[k := db.users[k].(password := digest)];
    DeleteAllForKeepsWellKept(db.otps, email, db.clock);
    db.otps := DeleteAllFor(db.otps, email);
    return PasswordChanged;
  }

  /**
   * `OTP.deleteOne({ _id })` on the record at position k: a consumed code, or
   * the store's 300-second TTL sweep, which may remove any record at any time.
   */
  method DeleteOtp(db: Db, k: nat)
    requires db.Valid() && k < |db.otps|
    modifies db
    ensures db.Valid()
    ensures db.otps == RemoveAt(old(db.otps), k)
    ensures db.users == old(db.users) && db.quizzes == old(db.quizzes)
    ensures db.clock == old(db.clock) && db.nextId == old(db.nextId)
  {
    RemoveAtKeepsWellKept(db.otps, k, db.clock);
    db.otps := RemoveAt(db.otps, k);
  }
}
