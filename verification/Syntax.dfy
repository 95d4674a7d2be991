/** Closed identifier syntax of src/heterodyne/actions/codec.py and requests.py. */
module Syntax {

  predicate LowerHex(c: char) {
    '0' <= c <= '9' || 'a' <= c <= 'f'
  }

  predicate DigestSyntax(s: string) {
    |s| == 64 && forall c :: c in s ==> LowerHex(c)
  }

  predicate SourceSyntax(s: string) {
    (|s| == 40 || |s| == 64) && forall c :: c in s ==> LowerHex(c)
  }

  predicate SafeLabel(s: string, maximum: nat := 256) {
    1 <= |s| <= maximum && forall c :: c in s ==> ' ' <= c <= '~'
  }

  predicate LowerAlnum(c: char) {
    'a' <= c <= 'z' || '0' <= c <= '9'
  }

  /** [a-z][a-z0-9-]{0,31}-[0-9a-z]{5} */
  predicate BeadId(s: string) {
    && 7 <= |s| <= 38
    && 'a' <= s[0] <= 'z'
    && s[|s| - 6] == '-'
    && (forall i :: 1 <= i < |s| - 6 ==> LowerAlnum(s[i]) || s[i] == '-')
    && (forall i :: |s| - 5 <= i < |s| ==> LowerAlnum(s[i]))
  }

  predicate IdentityText(s: string, maximum: nat) {
    1 <= |s| <= maximum
    && forall c :: c in s ==> 'a' <= c <= 'z' || 'A' <= c <= 'Z' || '0' <= c <= '9' || c in "-_.:"
  }
}
