/**
 * The API's custom validation rules: the `uuid` rule, which accepts the
 * 8-4-4-4-12 text form of a UUID (section 3 of RFC 4122) in lower-case
 * letters and digits, optionally wrapped in braces, and the
 * `email_confirmation_token` rule.
 */
module SpiraValidator {
  import opened Common
  import opened CacheStore

  predicate IsLowerHex(c: char) {
    '0' <= c <= '9' || 'a' <= c <= 'f'
  }

  predicate IsLowerAlnum(c: char) {
    '0' <= c <= '9' || 'a' <= c <= 'z'
  }

  /** The positions of the four hyphens in the 36-character form. */
  predicate IsHyphenPos(i: int) {
    i == 8 || i == 13 || i == 18 || i == 23
  }

  /** 36 characters: hyphens at the four hyphen positions, characters of
      class `cls` everywhere else. */
  predicate UuidShape(s: string, cls: char -> bool) {
    |s| == 36 && forall i :: 0 <= i < 36 ==> if IsHyphenPos(i) then s[i] == '-' else cls(s[i])
  }

  predicate AllIn(g: string, cls: char -> bool) {
    forall i :: 0 <= i < |g| ==> cls(g[i])
  }

  /** Five groups joined by hyphens. */
  function Hyphenated(g1: string, g2: string, g3: string, g4: string, g5: string): string {
    g1 + "-" + g2 + "-" + g3 + "-" + g4 + "-" + g5
  }

  predicate GroupsOk(g1: string, g2: string, g3: string, g4: string, g5: string, cls: char -> bool) {
    |g1| == 8 && |g2| == 4 && |g3| == 4 && |g4| == 4 && |g5| == 12 &&
    AllIn(g1, cls) && AllIn(g2, cls) && AllIn(g3, cls) && AllIn(g4, cls) && AllIn(g5, cls)
  }

  /** The positional shape agrees with the pattern's reading as groups of
      8, 4, 4, 4 and 12 class characters separated by hyphens. */
  lemma ShapeOfGroups(g1: string, g2: string, g3: string, g4: string, g5: string, cls: char -> bool)
    requires GroupsOk(g1, g2, g3, g4, g5, cls)
    ensures UuidShape(Hyphenated(g1, g2, g3, g4, g5), cls)
  {
    var s := Hyphenated(g1, g2, g3, g4, g5);
    forall i | 0 <= i < 36
      ensures if IsHyphenPos(i) then s[i] == '-' else cls(s[i])
    {
      if i < 8 { assert s[i] == g1[i]; }
      else if i == 8 || i == 13 || i == 18 || i == 23 { }
      else if i < 13 { assert s[i] == g2[i - 9]; }
      else if i < 18 { assert s[i] == g3[i - 14]; }
      else if i < 23 { assert s[i] == g4[i - 19]; }
      else { assert s[i] == g5[i - 24]; }
    }
  }

  lemma GroupsOfShape(s: string, cls: char -> bool)
    requires UuidShape(s, cls)
    ensures GroupsOk(s[..8], s[9..13], s[14..18], s[19..23], s[24..], cls)
    ensures s == Hyphenated(s[..8], s[9..13], s[14..18], s[19..23], s[24..])
  {
    assert forall i :: 0 <= i < 8 ==> s[..8][i] == s[i];
    assert forall i :: 0 <= i < 4 ==> s[9..13][i] == s[9 + i];
    assert forall i :: 0 <= i < 4 ==> s[14..18][i] == s[14 + i];
    assert forall i :: 0 <= i < 4 ==> s[19..23][i] == s[19 + i];
    assert forall i :: 0 <= i < 12 ==> s[24..][i] == s[24 + i];
    var h := Hyphenated(s[..8], s[9..13], s[14..18], s[19..23], s[24..]);
    assert |h| == 36;
    forall i | 0 <= i < 36
      ensures h[i] == s[i]
    {
      if i < 8 { }
      else if i == 8 || i == 13 || i == 18 || i == 23 { }
      else if i < 13 { assert h[i] == s[9..13][i - 9]; }
      else if i < 18 { assert h[i] == s[14..18][i - 14]; }
      else if i < 23 { assert h[i] == s[19..23][i - 19]; }
      else { assert h[i] == s[24..][i - 24]; }
    }
  }

  /** The `uuid` rule with the pattern's anchors read as "start and end of
      the string": an optional `{`, the 36-character form over lower-case
      letters and digits, an optional `}`. */
  predicate IsSpiraUuid(s: string) {
    var a := if |s| > 0 && s[0] == '{' then 1 else 0;
    var b := if |s| > a && s[|s| - 1] == '}' then |s| - 1 else |s|;
    UuidShape(s[a..b], IsLowerAlnum)
  }

  /** The braces are independent: each may be present or absent. */
  lemma SpiraUuidBraces(core: string, open: string, close: string)
    requires UuidShape(core, IsLowerAlnum)
    requires open == "" || open == "{"
    requires close == "" || close == "}"
    ensures IsSpiraUuid(open + core + close)
  {
    var s := open + core + close;
    assert s[|open|..|open| + 36] == core;
  }

  /** Every accepted string has 36 to 38 characters and is the 36-character
      form with optional braces. */
  lemma SpiraUuidForm(s: string)
    requires IsSpiraUuid(s)
    ensures 36 <= |s| <= 38
    ensures exists open, close ::
              (open == "" || open == "{") && (close == "" || close == "}") &&
              |open| + |close| <= |s| && s == open + s[|open|..|s| - |close|] + close &&
              UuidShape(s[|open|..|s| - |close|], IsLowerAlnum)
  {
    var open := if |s| > 0 && s[0] == '{' then "{" else "";
    var a := |open|;
    var close := if |s| > a && s[|s| - 1] == '}' then "}" else "";
    assert s == open + s[|open|..|s| - |close|] + close;
  }

  /** `preg_match` with `$` and no `D` modifier: `$` also matches just before
      a final line feed, so the `uuid` rule as written also accepts an
      accepted string followed by "\n". */
  predicate IsSpiraUuidAsWritten(s: string) {
    IsSpiraUuid(s) || (|s| > 0 && s[|s| - 1] == '\n' && IsSpiraUuid(s[..|s| - 1]))
  }

  const NilUuid: string := "00000000-0000-0000-0000-000000000000"

  lemma NilUuidShape(cls: char -> bool)
    requires cls('0')
    ensures UuidShape(NilUuid, cls)
  {
  }

  /** The rule as written lets a trailing line feed through. */
  lemma SpiraUuidAcceptsTrailingNewline()
    ensures IsSpiraUuidAsWritten(NilUuid + "\n")
    ensures !IsSpiraUuid(NilUuid + "\n")
  {
    NilUuidShape(IsLowerAlnum);
    var s := NilUuid + "\n";
    assert s[..|s| - 1] == NilUuid;
    assert |s| == 37 && s[0] != '{' && s[36] != '}';
  }

  /** The `uuid` rule, corrected to end at the end of the string. */
  predicate ValidateUuid(value: string) {
    IsSpiraUuid(value)
  }

  /** The corrected rule accepts 36 to 38 characters, only what the rule as
      written accepts, and, apart from a trailing line feed, all of it. */
  lemma ValidateUuidAgrees(value: string)
    ensures ValidateUuid(value) ==> 36 <= |value| <= 38
    ensures ValidateUuid(value) ==> IsSpiraUuidAsWritten(value)
    ensures (|value| == 0 || value[|value| - 1] != '\n') ==> (ValidateUuid(value) <==> IsSpiraUuidAsWritten(value))
  {
    if IsSpiraUuid(value) {
      SpiraUuidForm(value);
    }
  }

  /** Upper-case letters are refused: the class is lower-case only. */
  lemma UpperCaseRefused(s: string)
    requires IsSpiraUuid(s)
    ensures forall i :: 0 <= i < |s| ==> !('A' <= s[i] <= 'Z')
  {
    var a := if |s| > 0 && s[0] == '{' then 1 else 0;
    var b := if |s| > a && s[|s| - 1] == '}' then |s| - 1 else |s|;
    forall i | 0 <= i < |s|
      ensures !('A' <= s[i] <= 'Z')
    {
      if a <= i < b {
        assert s[i] == s[a..b][i - a];
      }
    }
  }

  /** The `email_confirmation_token` rule: the `email-confirm-token` header
      must name a stored confirmation, which the check consumes. */
  method EmailConfirmationTokenRule(cache: Cache, request: Request) returns (ok: bool)
    modifies cache
    ensures ok <==> PhpTruthy(Cached(old(cache.entries), "email_confirmation_" + PhpToString(Header(request, "email-confirm-token"))))
    ensures cache.entries == old(cache.entries) - {"email_confirmation_" + PhpToString(Header(request, "email-confirm-token"))}
  {
    var token := Header(request, "email-confirm-token");
    var email := cache.Pull("email_confirmation_" + PhpToString(token));
    ok := PhpTruthy(email);
  }
}
