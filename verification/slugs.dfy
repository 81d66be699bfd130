/** Validated identifiers: `[a-z0-9_-]{1,64}`, checked once, at construction. */
module Slugs {
  import opened Wrappers
  import opened Unicode

  const MAX_SLUG_BYTES := 64

  datatype SlugError = Empty | TooLong(len: nat) | InvalidChar(c: char)

  predicate IsSlugChar(c: char) {
    'a' <= c <= 'z' || '0' <= c <= '9' || c == '_' || c == '-'
  }

  predicate IsSlug(s: string) {
    0 < |s| <= MAX_SLUG_BYTES && forall i | 0 <= i < |s| :: IsSlugChar(s[i])
  }

  type Slug = s: string | IsSlug(s) witness "a"

  /** The length in bytes; characters outside ASCII take several. */
  function ByteLength(s: string): nat {
    |Utf8All(s)|
  }

  lemma {:induction false} ByteLengthBounds(s: string)
    ensures ByteLength(s) >= |s|
    ensures (forall i | 0 <= i < |s| :: IsSlugChar(s[i])) ==> ByteLength(s) == |s|
  {
    if s != "" {
      ByteLengthBounds(s[1..]);
      assert s == [s[0]] + s[1..];
    }
  }

  /** The first character outside the slug alphabet, if any. */
  function FirstInvalid(s: string): (r: Option<char>)
    ensures r.None? <==> forall i | 0 <= i < |s| :: IsSlugChar(s[i])
  {
    if s == "" then None
    else if !IsSlugChar(s[0]) then Some(s[0])
    else
      assert forall i | 0 < i < |s| :: s[i] == s[1..][i - 1];
      FirstInvalid(s[1..])
  }

  function ParseSlug(s: string): (r: Result<Slug, SlugError>)
    ensures r.Ok? <==> IsSlug(s)
    ensures r.Ok? ==> r.value == s
  {
    ByteLengthBounds(s);
    if s == "" then Err(Empty)
    else if ByteLength(s) > MAX_SLUG_BYTES then Err(TooLong(ByteLength(s)))
    else match FirstInvalid(s)
      case Some(c) => Err(InvalidChar(c))
      case None => Ok(s)
  }

  const ALPHABET := "abcdefghijklmnopqrstuvwxyz0123456789_-"

  lemma AlphabetIsListed(c: char)
    ensures IsSlugChar(c) <==> c in ALPHABET
  {
  }

  /** At position `i` stands the first character outside the alphabet. */
  ghost predicate FirstForeign(s: string, i: nat) {
    i < |s| && s[i] !in ALPHABET && forall j | 0 <= j < i :: s[j] in ALPHABET
  }

  lemma {:induction false} FirstInvalidIsFirst(s: string, i: nat)
    requires i < |s| && !IsSlugChar(s[i]) && forall j | 0 <= j < i :: IsSlugChar(s[j])
    ensures FirstInvalid(s) == Some(s[i])
  {
    if i > 0 {
      assert forall j | 0 <= j < i - 1 :: s[1..][j] == s[j + 1];
      FirstInvalidIsFirst(s[1..], i - 1);
    }
  }

  /** A string is accepted exactly when it is 1 to 64 characters of the alphabet; otherwise the error says why not. */
  lemma ParseSlugReads(s: string)
    ensures ParseSlug(s) == Ok(s) <==> 1 <= |s| <= 64 && forall i | 0 <= i < |s| :: s[i] in ALPHABET
    ensures ParseSlug(s) == Err(Empty) <==> s == ""
    ensures ParseSlug(s) == Err(TooLong(ByteLength(s))) <==> ByteLength(s) > 64
    ensures forall i: nat | FirstForeign(s, i) && ByteLength(s) <= 64 :: ParseSlug(s) == Err(InvalidChar(s[i]))
  {
    assert forall i | 0 <= i < |s| :: IsSlugChar(s[i]) <==> s[i] in ALPHABET by {
      forall i | 0 <= i < |s| ensures IsSlugChar(s[i]) <==> s[i] in ALPHABET {
        AlphabetIsListed(s[i]);
      }
    }
    forall i: nat | FirstForeign(s, i) && ByteLength(s) <= 64 ensures ParseSlug(s) == Err(InvalidChar(s[i])) {
      FirstInvalidIsFirst(s, i);
    }
  }
}
