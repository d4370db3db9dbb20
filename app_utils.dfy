/**
 * The application's shared helpers: confirmation codes and their expiry, referral codes that no
 * user holds yet, the legacy referral reward and the removal of stale unverified accounts.
 * Random draws are inputs: a draw is the sequence of alphabet positions `random.choices` or
 * `secrets.token_hex` would pick.
 */
module AppUtils {
  import opened Wrappers
  import opened Clock
  import opened Money
  import opened Text
  import opened UserModel
  import opened Store

  /** `string.digits`. */
  const Digits: string := "0123456789"

  /** `string.ascii_uppercase + string.digits`. */
  const UpperAlnum: string := "ABCDEFGHIJKLMNOPQRSTUVWXYZ0123456789"

  /** An upper-case hexadecimal digit: `0`-`9` or `A`-`F`. */
  predicate IsUpperHex(c: char) {
    '0' <= c <= '9' || 'A' <= c <= 'F'
  }

  /** The upper-case hex digit of a value below 16. */
  function HexDigit(v: int): (c: char)
    requires 0 <= v < 16
    ensures IsUpperHex(c)
  {
    if v < 10 then ('0' as int + v) as char else ('A' as int + v - 10) as char
  }

  /** A draw of positions in an alphabet of `size` characters. */
  predicate IsDraw(draw: seq<int>, size: int) {
    forall i :: 0 <= i < |draw| ==> 0 <= draw[i] < size
  }

  /** `"".join(random.choices(alphabet, k=len(draw)))` for the given draw. */
  function Choices(alphabet: string, draw: seq<int>): (s: string)
    requires IsDraw(draw, |alphabet|)
    ensures |s| == |draw| && forall i :: 0 <= i < |s| ==> s[i] in alphabet
  {
    seq(|draw|, i requires 0 <= i < |draw| => alphabet[draw[i]])
  }

  /** `generate_code`: six random decimal digits. */
  function GenerateCode(draw: seq<int>): (code: string)
    requires |draw| == 6 && IsDraw(draw, 10)
    ensures |code| == 6 && AllDigits(code)
  {
    var code := Choices(Digits, draw);
    assert forall i :: 0 <= i < |code| ==> IsDigit(code[i]) by {
      forall i | 0 <= i < |code| ensures IsDigit(code[i]) {
        assert code[i] == Digits[draw[i]];
      }
    }
    code
  }

  /** Every six-digit string, leading zeros included, is a code some draw produces. */
  lemma EveryCodeDrawn(code: string)
    requires |code| == 6 && AllDigits(code)
    ensures var draw := seq(6, i requires 0 <= i < 6 => DigitValue(code[i]) as int);
      IsDraw(draw, 10) && GenerateCode(draw) == code
  {
    var draw := seq(6, i requires 0 <= i < 6 => DigitValue(code[i]) as int);
    forall i | 0 <= i < 6 ensures Digits[draw[i]] == code[i] {
      assert Digits[DigitValue(code[i])] == code[i];
    }
  }

  /** `code_is_expired`: a missing send time counts as expired; otherwise the code expires once
      strictly more than `minutes` minutes have passed. */
  function CodeIsExpired(sentTime: Option<Time>, now: Time, minutes: int): (expired: bool)
    ensures sentTime.None? ==> expired
    ensures sentTime.Some? ==> (expired <==> now - sentTime.value > minutes * Minute)
  {
    match sentTime
    case None => true
    case Some(t) => now - t > minutes * 60
  }

  /** An expired code stays expired. */
  lemma CodeStaysExpired(sentTime: Option<Time>, now: Time, later: Time, minutes: int)
    requires CodeIsExpired(sentTime, now, minutes) && now <= later
    ensures CodeIsExpired(sentTime, later, minutes)
  {
  }

  /** Exactly `minutes` minutes after sending the code still holds. */
  lemma CodeValidAtBoundary(t: Time, minutes: int)
    ensures !CodeIsExpired(Some(t), t + minutes * Minute, minutes)
    ensures CodeIsExpired(Some(t), t + minutes * Minute + 1, minutes)
  {
  }

  // ---------------------------------------------------------------------------
  // referral codes

  /** `token_hex(len(bytes)).upper()`: two upper-case hex digits per byte, high nibble first. */
  function HexUpper(bytes: seq<int>): (s: string)
    requires IsDraw(bytes, 256)
    ensures |s| == 2 * |bytes|
    ensures forall i :: 0 <= i < |s| ==> IsUpperHex(s[i])
    decreases |bytes|
  {
    if |bytes| == 0 then ""
    else HexUpper(bytes[..|bytes| - 1]) + [HexDigit(bytes[|bytes| - 1] / 16), HexDigit(bytes[|bytes| - 1] % 16)]
  }

  /** The value of an upper-case hex digit. */
  function HexValue(c: char): (v: int)
    ensures 0 <= v < 16
  {
    if '0' <= c <= '9' then c as int - '0' as int
    else if 'A' <= c <= 'F' then c as int - 'A' as int + 10
    else 0
  }

  /** The bytes a string of hex digit pairs stands for (a last unpaired digit is dropped). */
  function ParseHex(s: string): seq<int>
    decreases |s|
  {
    if |s| < 2 then [] else ParseHex(s[..|s| - 2]) + [16 * HexValue(s[|s| - 2]) + HexValue(s[|s| - 1])]
  }

  /** The two hex digits of a byte give the byte back. */
  lemma HexPair(b: int)
    requires 0 <= b < 256
    ensures 16 * HexValue(HexDigit(b / 16)) + HexValue(HexDigit(b % 16)) == b
  {
  }

  lemma ParseHexSnoc(t: string, hi: char, lo: char)
    ensures ParseHex(t + [hi, lo]) == ParseHex(t) + [16 * HexValue(hi) + HexValue(lo)]
  {
    var s := t + [hi, lo];
    assert s[..|s| - 2] == t;
  }

  /** The hex text of a token gives back the token's bytes. */
  lemma {:induction false} HexRoundTrip(bytes: seq<int>)
    requires IsDraw(bytes, 256)
    ensures ParseHex(HexUpper(bytes)) == bytes
    decreases |bytes|
  {
    if |bytes| > 0 {
      var init := bytes[..|bytes| - 1];
      var b := bytes[|bytes| - 1];
      var hi, lo := HexDigit(b / 16), HexDigit(b % 16);
      assert HexUpper(bytes) == HexUpper(init) + [hi, lo];
      ParseHexSnoc(HexUpper(init), hi, lo);
      HexRoundTrip(init);
      HexPair(b);
      assert bytes == init + [b];
    }
  }

  /** The first candidate that no user holds as a referral code, if any. */
  function FirstFree(users: map<int, User>, candidates: seq<string>): (r: Option<string>)
    ensures r.Some? ==> r.value in candidates && !CodeTaken(users, r.value)
    ensures r.None? ==> forall i :: 0 <= i < |candidates| ==> CodeTaken(users, candidates[i])
    decreases |candidates|
  {
    if |candidates| == 0 then None
    else if !CodeTaken(users, candidates[0]) then Some(candidates[0])
    else FirstFree(users, candidates[1..])
  }

  /** The lookup `generate_*_referral_code` makes finds a user exactly when the code is taken. */
  lemma LookupFindsTaken(users: map<int, User>, code: string)
    ensures UserByReferralCode(users, Some(code)).Some? <==> CodeTaken(users, code)
  {
    if CodeTaken(users, code) {
      var k :| k in users && users[k].referralCode == Some(code);
      assert users[k].referralCode == Some(code);
    }
  }

  /** The codes the tokens spell, in order. */
  function HexCandidates(tokens: seq<seq<int>>): (cs: seq<string>)
    requires forall i :: 0 <= i < |tokens| ==> IsDraw(tokens[i], 256)
    ensures |cs| == |tokens| && forall i :: 0 <= i < |tokens| ==> cs[i] == HexUpper(tokens[i])
  {
    seq(|tokens|, i requires 0 <= i < |tokens| => HexUpper(tokens[i]))
  }

  /** The codes the draws spell, in order. */
  function AlnumCandidates(draws: seq<seq<int>>): (cs: seq<string>)
    requires forall i :: 0 <= i < |draws| ==> IsDraw(draws[i], |UpperAlnum|)
    ensures |cs| == |draws| && forall i :: 0 <= i < |draws| ==> cs[i] == Choices(UpperAlnum, draws[i])
  {
    seq(|draws|, i requires 0 <= i < |draws| => Choices(UpperAlnum, draws[i]))
  }

  /** `generate_referral_code`: the retry loop, over the tokens that `token_hex(4)` yields in
      turn; `None` when every one of them is taken. A returned code is eight upper-case hex
      digits that no user holds. */
  method GenerateReferralCode(db: Db, tokens: seq<seq<int>>) returns (code: Option<string>)
    requires forall i :: 0 <= i < |tokens| ==> |tokens[i]| == 4 && IsDraw(tokens[i], 256)
    ensures code == FirstFree(db.users, HexCandidates(tokens))
    ensures code.Some? ==> |code.value| == 8 && !CodeTaken(db.users, code.value)
    ensures code.Some? ==> forall i :: 0 <= i < 8 ==> IsUpperHex(code.value[i])
  {
    ghost var cs := HexCandidates(tokens);
    var i := 0;
    while i < |tokens|
      invariant 0 <= i <= |tokens|
      invariant FirstFree(db.users, cs[i..]) == FirstFree(db.users, cs)
    {
      var c := HexUpper(tokens[i]);
      LookupFindsTaken(db.users, c);
      assert cs[i..][0] == c && cs[i..][1..] == cs[i + 1..];
      if UserByReferralCode(db.users, Some(c)).None? {
        return Some(c);
      }
      i := i + 1;
    }
    return None;
  }

  /** `generate_unique_referral_code(length)`: the retry loop, over the draws `random.choices`
      yields in turn; `None` when every one of them is taken. A returned code has `length`
      characters, each an upper-case letter or a digit, and no user holds it. */
  method GenerateUniqueReferralCode(db: Db, draws: seq<seq<int>>, length: nat) returns (code: Option<string>)
    requires forall i :: 0 <= i < |draws| ==> |draws[i]| == length && IsDraw(draws[i], |UpperAlnum|)
    ensures code == FirstFree(db.users, AlnumCandidates(draws))
    ensures code.Some? ==> |code.value| == length && !CodeTaken(db.users, code.value)
    ensures code.Some? ==> forall i :: 0 <= i < length ==> code.value[i] in UpperAlnum
  {
    ghost var cs := AlnumCandidates(draws);
    var i := 0;
    while i < |draws|
      invariant 0 <= i <= |draws|
      invariant FirstFree(db.users, cs[i..]) == FirstFree(db.users, cs)
    {
      var c := Choices(UpperAlnum, draws[i]);
      LookupFindsTaken(db.users, c);
      assert cs[i..][0] == c && cs[i..][1..] == cs[i + 1..];
      if UserByReferralCode(db.users, Some(c)).None? {
        return Some(c);
      }
      i := i + 1;
    }
    return None;
  }

  /** The default code length of `generate_unique_referral_code`. */
  const DefaultCodeLength: nat := 8

  // ---------------------------------------------------------------------------
  // the legacy referral reward

  /** The user `apply_referral_reward` credits for `user`, if any. */
  function RewardRecipient(users: map<int, User>, user: User): (r: Option<int>)
    ensures r.Some? ==> r.value in users && r.value != user.id
    ensures r.Some? ==> Truthy(user.referredBy) && users[r.value].referralCode == user.referredBy
    ensures r.None? ==>
      (!Truthy(user.referredBy) || UserByReferralCode(users, user.referredBy).None?
       || UserByReferralCode(users, user.referredBy) == Some(user.id))
  {
    if !Truthy(user.referredBy) then None
    else
      match UserByReferralCode(users, user.referredBy)
      case None => None
      case Some(k) => if k == user.id then None else Some(k)
  }

  /** The users table after the reward: the recipient's balance raised by `bonus`. */
  function Rewarded(users: map<int, User>, user: User, bonus: Cents): map<int, User> {
    match RewardRecipient(users, user)
    case None => users
    case Some(k) => users[k := users[k].(walletBalance := users[k].walletBalance + bonus)]
  }

  /** `apply_referral_reward(user)`, with the configured `REFERRAL_BONUS`. */
  method ApplyReferralReward(db: Db, user: User, bonus: Cents)
    modifies db`users
    ensures db.users == Rewarded(old(db.users), user, bonus)
  {
    if !Truthy(user.referredBy) {
      return;
    }
    var found := UserByReferralCode(db.users, user.referredBy);
    if found.None? {
      return;
    }
    var referrerId := found.value;
    if referrerId == user.id {
      return;
    }
    var referrer := db.users[referrerId];
    referrer := referrer.(walletBalance := referrer.walletBalance + bonus);
    db.users := db.users[referrerId := referrer];
  }

  /** The reward only ever changes one balance, by exactly the bonus. */
  lemma RewardEffect(users: map<int, User>, user: User, bonus: Cents)
    ensures var users2 := Rewarded(users, user, bonus);
      users2.Keys == users.Keys
      && (RewardRecipient(users, user).None? ==> users2 == users)
      && (RewardRecipient(users, user).Some? ==>
            var k := RewardRecipient(users, user).value;
            users2[k].walletBalance == users[k].walletBalance + bonus
            && users2[k].(walletBalance := users[k].walletBalance) == users[k]
            && forall j :: j in users && j != k ==> users2[j] == users[j])
  {
  }

  /** The recipient is found by referral code, which the reward does not touch: it is the same
      on every call. */
  lemma RecipientStable(users: map<int, User>, user: User, bonus: Cents)
    ensures RewardRecipient(Rewarded(users, user, bonus), user) == RewardRecipient(users, user)
  {
    var users2 := Rewarded(users, user, bonus);
    if RewardRecipient(users, user).Some? {
      var k := RewardRecipient(users, user).value;
      var a := UserByReferralCode(users, user.referredBy);
      var b := UserByReferralCode(users2, user.referredBy);
      assert a.Some?;
      assert users2[a.value].referralCode == user.referredBy;
      assert b.Some?;
      assert users[b.value].referralCode == user.referredBy;
      assert a.value <= b.value && b.value <= a.value;
    } else if Truthy(user.referredBy) {
      var a := UserByReferralCode(users, user.referredBy);
      var b := UserByReferralCode(users2, user.referredBy);
      assert users2 == users;
    }
  }

  /** There is no duplicate guard: a second call credits the same user a second time. */
  lemma RewardTwice(users: map<int, User>, user: User, bonus: Cents)
    requires RewardRecipient(users, user).Some?
    ensures var k := RewardRecipient(users, user).value;
      var users2 := Rewarded(Rewarded(users, user, bonus), user, bonus);
      k in users2 && users2[k].walletBalance == users[k].walletBalance + 2 * bonus
  {
    RecipientStable(users, user, bonus);
  }

  // ---------------------------------------------------------------------------
  // stale unverified accounts

  /** The expiry the helper falls back to when `EMAIL_VERIFICATION_EXPIRY_HOURS` is missing. */
  const FallbackExpiryHours: int := 6

  /** An unverified account is stale once now is strictly after its creation time plus the
      expiry. */
  predicate IsStale(u: User, now: Time, expiryHours: int) {
    !u.isEmailVerified && now > u.createdAt + expiryHours * Hour
  }

  /** `delete_if_expired_unverified`, for the user stored under `userId`; `configuredHours` is
      the configuration entry, missing when not set. */
  method DeleteIfExpiredUnverified(db: Db, userId: int, now: Time, configuredHours: Option<int>)
      returns (deleted: bool)
    requires userId in db.users
    modifies db`users
    ensures deleted == IsStale(old(db.users[userId]), now, configuredHours.GetOr(FallbackExpiryHours))
    ensures db.users == if deleted then old(db.users) - {userId} else old(db.users)
  {
    var user := db.users[userId];
    if user.isEmailVerified {
      return false;
    }
    var expiryHours := configuredHours.GetOr(FallbackExpiryHours);
    var expiryTime := user.createdAt + expiryHours * Hour;
    if now > expiryTime {
      db.users := db.users - {userId};
      return true;
    }
    return false;
  }

  /** A verified account is never stale, and an unverified one becomes stale only after the
      expiry, and then for good. */
  lemma StaleProperties(u: User, now: Time, later: Time, expiryHours: int)
    ensures u.isEmailVerified ==> !IsStale(u, now, expiryHours)
    ensures !u.isEmailVerified && now == u.createdAt + expiryHours * Hour ==> !IsStale(u, now, expiryHours)
    ensures IsStale(u, now, expiryHours) && now <= later ==> IsStale(u, later, expiryHours)
  {
  }
}
