/** The canonical hasher `_id_for`: SHA-256 (FIPS 180-4) over the sorted-key,
    whitespace-free JSON text of a value, as lowercase hex. The hash itself is
    not modelled; every operation that uses it takes it as a parameter.
    Collision freedom and the hex-digest shape are stated here; the lemmas
    that need collision freedom assume it, and a lemma about a hex id
    assumes that shape for that one id. */
module Digest {
  import opened JsonValues

  type Hasher = Json -> string

  /** No two distinct values share a digest (collision freedom, idealised). */
  ghost predicate Injective(h: Hasher)
  {
    forall a, b {:trigger h(a), h(b)} :: h(a) == h(b) ==> a == b
  }

  /** 64 lowercase hexadecimal characters: the shape of a SHA-256 hex digest. */
  predicate IsHexDigest(s: string)
  {
    |s| == 64 && forall i :: 0 <= i < |s| ==> s[i] in "0123456789abcdef"
  }
}
