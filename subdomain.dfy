/**
 * Subdomain slugs: normalising a business name, validating a slug against the length, character,
 * uniqueness and reserved-word rules in that order, and deriving a free slug by numeric suffixes.
 */
module Subdomain {
  import opened Wrappers
  import opened Text
  import opened Schema
  import opened Storage

  /** U+0E01 (ก) to U+0E59 (๙): the Thai range that the normaliser and the validator both accept. */
  predicate IsThai(c: char) { 0x0E01 <= c as int <= 0x0E59 }

  /** `[\wก-๙]`: a character the normaliser keeps. */
  predicate IsWordOrThai(c: char) { IsLowerAlpha(c) || IsUpper(c) || IsDigit(c) || c == '_' || IsThai(c) }

  /** `[a-z0-9ก-๙]`: a character the validator accepts. */
  predicate IsSlugChar(c: char) { IsLowerAlpha(c) || IsDigit(c) || IsThai(c) }

  predicate AllSlugChars(s: string) { forall i :: 0 <= i < |s| ==> IsSlugChar(s[i]) }

  /** What the normaliser can produce: a slug character or an underscore. */
  predicate IsNormalChar(c: char) { IsSlugChar(c) || c == '_' }

  /**
   * `createSubdomain`: empty stays empty; otherwise lower-case, drop everything but `\w` and Thai,
   * drop white space, trim.
   */
  function CreateSubdomain(businessName: string): (r: string)
    ensures businessName == "" ==> r == ""
    ensures forall i :: 0 <= i < |r| ==> IsNormalChar(r[i])
  {
    if businessName == "" then ""
    else
      var kept := Filter(Lower(businessName), IsWordOrThai);
      assert forall i :: 0 <= i < |kept| ==> IsNormalChar(kept[i]) by {
        forall i | 0 <= i < |kept| ensures IsNormalChar(kept[i]) {
          var lowered := Lower(businessName);
          assert kept[i] in lowered;
          var j :| 0 <= j < |lowered| && lowered[j] == kept[i];
        }
      }
      Trim(RemoveSpaces(kept))
  }

  /** No character the normaliser keeps is white space. */
  lemma WordOrThaiIsNotSpace(c: char)
    requires IsWordOrThai(c)
    ensures !IsJsSpace(c)
  {
  }

  /**
   * Removing white space and trimming never change what the character filter kept: the slug is
   * the lower-cased name with every character outside `[\wก-๙]` dropped, the rest in order.
   */
  lemma CreateSubdomainIsFilter(businessName: string)
    ensures CreateSubdomain(businessName) == Filter(Lower(businessName), IsWordOrThai)
  {
    if businessName != "" {
      var kept := Filter(Lower(businessName), IsWordOrThai);
      forall i | 0 <= i < |kept| ensures !IsJsSpace(kept[i]) {
        WordOrThaiIsNotSpace(kept[i]);
      }
      assert RemoveSpaces(kept) == kept;
    }
  }

  /** Normalising a concatenation normalises each part: kept characters keep their order and number. */
  lemma CreateSubdomainAppend(a: string, b: string)
    ensures CreateSubdomain(a + b) == CreateSubdomain(a) + CreateSubdomain(b)
  {
    CreateSubdomainIsFilter(a + b);
    CreateSubdomainIsFilter(a);
    CreateSubdomainIsFilter(b);
    LowerAppend(a, b);
    FilterAppend(Lower(a), Lower(b), IsWordOrThai);
  }

  /** One character is lower-cased and then kept exactly when it is a letter, digit, `_` or Thai. */
  lemma CreateSubdomainOfChar(c: char)
    ensures CreateSubdomain([c]) == if IsWordOrThai(LowerChar(c)) then [LowerChar(c)] else []
  {
    CreateSubdomainIsFilter([c]);
    assert Lower([c]) == [LowerChar(c)];
    FilterSingleton(LowerChar(c), IsWordOrThai);
  }

  /** A string made only of characters the normaliser can produce is left as it is. */
  lemma CreateSubdomainFixesNormalised(s: string)
    requires forall i :: 0 <= i < |s| ==> IsNormalChar(s[i])
    ensures CreateSubdomain(s) == s
  {
    if s != "" {
      assert forall i :: 0 <= i < |s| ==> !IsUpper(s[i]);
      LowerOfLowerFree(s);
      assert Filter(s, IsWordOrThai) == s;
      assert forall i :: 0 <= i < |s| ==> !IsJsSpace(s[i]);
      assert RemoveSpaces(s) == s;
    }
  }

  /** Normalising is idempotent. */
  lemma CreateSubdomainIdempotent(name: string)
    ensures CreateSubdomain(CreateSubdomain(name)) == CreateSubdomain(name)
  {
    CreateSubdomainFixesNormalised(CreateSubdomain(name));
  }

  datatype Rejection = TooShort | TooLong | BadCharacters | Taken | Reserved

  datatype Validation = Valid | Invalid(reason: Rejection)

  function RejectionMessage(r: Rejection): string
  {
    match r
    case TooShort => "Subdomain must be at least 3 characters long"
    case TooLong => "Subdomain must be at most 30 characters long"
    case BadCharacters =>
      "Subdomain can only contain lowercase letters, numbers, and Thai characters without spaces or special characters"
    case Taken => "This subdomain is already taken"
    case Reserved => "This subdomain is reserved and cannot be used"
  }

  const ReservedWords: seq<string> := [
    "admin", "api", "app", "billing", "dashboard", "help", "login",
    "register", "settings", "support", "www", "mail", "blog", "docs"]

  /**
   * `validateSubdomain`: the first failing rule, in the order length >= 3, length <= 30,
   * characters, not held by any user (ignoring case), not reserved.
   */
  function ValidateSubdomain(subdomain: string, users: seq<User>): (v: Validation)
    ensures v.Valid? <==>
      3 <= |subdomain| <= 30 && AllSlugChars(subdomain) &&
      Lookup(users, SubdomainColumn, subdomain).None? && subdomain !in ReservedWords
    ensures v == Invalid(TooShort) <==> |subdomain| < 3
    ensures v == Invalid(TooLong) <==> |subdomain| > 30
    ensures v == Invalid(BadCharacters) <==> 3 <= |subdomain| <= 30 && !AllSlugChars(subdomain)
    ensures v == Invalid(Taken) <==>
      3 <= |subdomain| <= 30 && AllSlugChars(subdomain) && Lookup(users, SubdomainColumn, subdomain).Some?
    ensures v == Invalid(Reserved) <==>
      3 <= |subdomain| <= 30 && AllSlugChars(subdomain) &&
      Lookup(users, SubdomainColumn, subdomain).None? && subdomain in ReservedWords
  {
    if |subdomain| < 3 then Invalid(TooShort)
    else if |subdomain| > 30 then Invalid(TooLong)
    else if !AllSlugChars(subdomain) then Invalid(BadCharacters)
    else if Lookup(users, SubdomainColumn, subdomain).Some? then Invalid(Taken)
    else if subdomain in ReservedWords then Invalid(Reserved)
    else Valid
  }

  /** The reply `{ valid, message? }`. */
  function ValidationReply(v: Validation): (bool, Option<string>)
  {
    match v
    case Valid => (true, None)
    case Invalid(r) => (false, Some(RejectionMessage(r)))
  }

  /** A slug of acceptable length holding an underscore fails validation on its characters. */
  lemma UnderscoreFailsValidation(s: string, users: seq<User>, i: nat)
    requires 3 <= |s| <= 30 && i < |s| && s[i] == '_'
    ensures ValidateSubdomain(s, users) == Invalid(BadCharacters)
  {
    assert !IsSlugChar(s[i]);
  }

  /**
   * The normaliser keeps `_` (it is a `\w` character), which the validator then rejects: a
   * normalised name of acceptable length that holds an underscore, such as "my_shop", comes
   * back unchanged from the normaliser and fails validation on its characters.
   */
  lemma NormalisedUnderscoreFailsValidation(s: string, users: seq<User>, i: nat)
    requires forall j :: 0 <= j < |s| ==> IsNormalChar(s[j])
    requires 3 <= |s| <= 30 && i < |s| && s[i] == '_'
    ensures CreateSubdomain(s) == s
    ensures ValidateSubdomain(CreateSubdomain(s), users) == Invalid(BadCharacters)
  {
    CreateSubdomainFixesNormalised(s);
    UnderscoreFailsValidation(s, users, i);
  }

  /** The k-th probe of `generateUniqueSubdomain`: the base itself, then base1, base2, ... */
  function Candidate(base: string, k: nat): string
  {
    if k == 0 then base else base + NatToString(k)
  }

  /** The timestamp fallback: the base followed by the last six digits of the clock in ms. */
  function Fallback(base: string, now: nat): string
  {
    base + TakeLast(NatToString(now), 6)
  }

  /**
   * The result of `generateUniqueSubdomain` once probes 0 .. k-1 were all "already taken":
   * probe 100 is validated but never used, the fallback is returned instead.
   */
  function Probe(base: string, users: seq<User>, k: nat, now: nat): (r: string)
    requires k <= 100
    decreases 100 - k
    ensures r == base || r == Fallback(base, now) || ValidateSubdomain(r, users).Valid?
  {
    if k == 100 then Fallback(base, now)
    else
      match ValidateSubdomain(Candidate(base, k), users)
      case Valid => Candidate(base, k)
      case Invalid(reason) => if reason != Taken then base else Probe(base, users, k + 1, now)
  }

  /**
   * The slug `generateUniqueSubdomain` settles on: one that validates, the base, or the clock
   * fallback; a base that validates, or fails for any reason but "taken", comes back unchanged.
   */
  function Allocate(base: string, users: seq<User>, now: nat): (r: string)
    ensures r == base || r == Fallback(base, now) || ValidateSubdomain(r, users).Valid?
    ensures ValidateSubdomain(base, users) != Invalid(Taken) ==> r == base
  {
    Probe(base, users, 0, now)
  }

  /** `generateUniqueSubdomain`: probe base, base1, ..., base100, then fall back to the clock. */
  method GenerateUniqueSubdomain(subdomain: string, store: MemStorage, now: nat) returns (r: string)
    ensures r == Allocate(subdomain, store.users, now)
  {
    var candidate := subdomain;
    var counter := 1;
    var validation := ValidateSubdomain(candidate, store.users);
    while !validation.Valid?
      invariant 1 <= counter <= 100
      invariant candidate == Candidate(subdomain, counter - 1)
      invariant validation == ValidateSubdomain(candidate, store.users)
      invariant Probe(subdomain, store.users, counter - 1, now) == Allocate(subdomain, store.users, now)
      decreases 100 - counter
    {
      if validation.reason != Taken {
        return subdomain;
      }
      candidate := subdomain + NatToString(counter);
      validation := ValidateSubdomain(candidate, store.users);
      counter := counter + 1;
      if counter > 100 {
        return subdomain + TakeLast(NatToString(now), 6);
      }
    }
    return candidate;
  }

  predicate TakenProbe(base: string, users: seq<User>, j: nat)
  {
    ValidateSubdomain(base + NatToString(j), users) == Invalid(Taken)
  }

  /**
   * When the suffixed candidates base+k .. base+(j-1) are all taken and base+j is not, the
   * loop stops at base+j: it returns that candidate when it validates and the base otherwise.
   */
  lemma {:induction false} ProbeStopsAtFirstUntaken(base: string, users: seq<User>, k: nat, j: nat, now: nat)
    requires 1 <= k <= j <= 99
    requires forall i :: k <= i < j ==> TakenProbe(base, users, i)
    requires !TakenProbe(base, users, j)
    decreases j - k
    ensures Probe(base, users, k, now) ==
      if ValidateSubdomain(base + NatToString(j), users).Valid? then base + NatToString(j) else base
  {
    if k < j {
      assert TakenProbe(base, users, k);
      assert ValidateSubdomain(Candidate(base, k), users) == Invalid(Taken);
      ProbeStopsAtFirstUntaken(base, users, k + 1, j, now);
      assert Probe(base, users, k, now) == Probe(base, users, k + 1, now);
    } else {
      assert Candidate(base, j) == base + NatToString(j);
    }
  }

  /** When base+k .. base99 are all taken, the loop runs out and returns the timestamp fallback. */
  lemma {:induction false} ProbeAllTaken(base: string, users: seq<User>, k: nat, now: nat)
    requires 1 <= k <= 100
    requires forall i :: k <= i <= 99 ==> TakenProbe(base, users, i)
    decreases 100 - k
    ensures Probe(base, users, k, now) == Fallback(base, now)
  {
    if k < 100 {
      assert TakenProbe(base, users, k);
      assert ValidateSubdomain(Candidate(base, k), users) == Invalid(Taken);
      ProbeAllTaken(base, users, k + 1, now);
      assert Probe(base, users, k, now) == Probe(base, users, k + 1, now);
    }
  }

  /**
   * `generateUniqueSubdomain` on a taken base: the first of base1 .. base99 that is not taken
   * decides the result (itself when it validates, the base when it fails another rule), and
   * when all 99 are taken the clock fallback is returned without being validated; base100 is
   * never returned.
   */
  lemma AllocateOnTakenBase(base: string, users: seq<User>, j: nat, now: nat)
    requires ValidateSubdomain(base, users) == Invalid(Taken)
    requires 1 <= j <= 99
    requires forall i :: 1 <= i < j ==> TakenProbe(base, users, i)
    ensures !TakenProbe(base, users, j) ==> (Allocate(base, users, now) ==
      if ValidateSubdomain(base + NatToString(j), users).Valid? then base + NatToString(j) else base)
    ensures j == 99 && TakenProbe(base, users, j) ==> Allocate(base, users, now) == Fallback(base, now)
  {
    if !TakenProbe(base, users, j) {
      ProbeStopsAtFirstUntaken(base, users, 1, j, now);
    } else if j == 99 {
      ProbeAllTaken(base, users, 1, now);
    }
  }

  /**
   * The result can be a slug another user already holds: a taken 30-character base has a
   * 31-character first probe, which fails on length rather than as taken, so the loop gives
   * back the taken base.
   */
  lemma AllocateCanReturnTakenSlug(base: string, users: seq<User>, now: nat)
    requires |base| == 30 && ValidateSubdomain(base, users) == Invalid(Taken)
    ensures Allocate(base, users, now) == base
    ensures Lookup(users, SubdomainColumn, base).Some?
  {
    assert ValidateSubdomain(Candidate(base, 1), users) == Invalid(TooLong);
  }
}
