/** Publish, play and stats keys. */
module AccessKey {

  const MIN_ACCESS_KEY_LEN: nat := 32

  predicate IsAlphanumeric(c: char) {
    'a' <= c <= 'z' || 'A' <= c <= 'Z' || '0' <= c <= '9'
  }

  predicate IsValid(key: string) {
    && MIN_ACCESS_KEY_LEN <= |key| <= 63
    && IsAlphanumeric(key[0])
    && forall i | 0 < i < |key| :: IsAlphanumeric(key[i]) || key[i] in {'.', '_', '-'}
  }
}
