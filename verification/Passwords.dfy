/**
  Salted password records (server/src/message_router.cpp:72-111).  SHA-256 is a parameter
  `sha`: any function from strings to 64 lower-case hex digits.
*/
module Passwords {
  type Digest = string -> string

  predicate HexDigit(c: char) {
    '0' <= c <= '9' || 'a' <= c <= 'f'
  }

  ghost predicate Hex(s: string) {
    forall c <- s :: HexDigit(c)
  }

  ghost predicate IsDigest(sha: Digest) {
    forall s :: |sha(s)| == 64 && Hex(sha(s))
  }

  /** generate_salt: 16 random bytes as hex. */
  ghost predicate IsSalt(salt: string) {
    |salt| == 32 && Hex(salt)
  }

  function HashPassword(sha: Digest, salt: string, password: string): string {
    salt + ":" + sha(salt + ":" + password)
  }

  /** std::string::find: the first occurrence, or the length. */
  function Find(s: string, c: char): (i: nat)
    ensures i <= |s| && c !in s[..i] && (i < |s| ==> s[i] == c)
  {
    if s == [] || s[0] == c then 0
    else
      var i := Find(s[1..], c);
      assert s[..i + 1] == [s[0]] + s[1..][..i];
      i + 1
  }

  /** Records without a salt are plain digests of an earlier version. */
  predicate VerifyPassword(sha: Digest, password: string, stored: string) {
    var colon := Find(stored, ':');
    if colon == |stored| || colon + 1 >= |stored| then sha(password) == stored
    else sha(stored[..colon] + ":" + password) == stored[colon + 1..]
  }

  lemma HexHasNoColon(s: string)
    requires Hex(s)
    ensures ':' !in s
  {
  }

  lemma FirstColon(salt: string, rest: string)
    requires Hex(salt)
    ensures Find(salt + ":" + rest, ':') == |salt|
  {
    var s := salt + ":" + rest;
    HexHasNoColon(salt);
    assert s[..|salt|] == salt && s[|salt|] == ':';
  }

  /** A record verifies a password exactly when the salted digests agree: the password that
      was registered always does, colons and all, and another one only on a collision. */
  lemma VerifyHashed(sha: Digest, salt: string, password: string, attempt: string)
    requires IsDigest(sha) && IsSalt(salt)
    ensures VerifyPassword(sha, attempt, HashPassword(sha, salt, password))
      <==> sha(salt + ":" + attempt) == sha(salt + ":" + password)
  {
    var digest := sha(salt + ":" + password);
    var stored := HashPassword(sha, salt, password);
    FirstColon(salt, digest);
    assert stored[..|salt|] == salt && stored[|salt| + 1..] == digest;
  }

  /** A record of the older kind, without a salt, verifies as a plain digest. */
  lemma VerifyLegacy(sha: Digest, attempt: string, stored: string)
    requires Hex(stored)
    ensures VerifyPassword(sha, attempt, stored) <==> sha(attempt) == stored
  {
    HexHasNoColon(stored);
  }
}
