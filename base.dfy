/** Values shared by the modules of the model: optional values, error results,
    and the two string operations the pages rely on (`includes` and
    `toLowerCase`). */
module Base {

  datatype Option<T> = None | Some(value: T)

  datatype Result<T, E> = Ok(value: T) | Err(error: E)

  /** `s` begins with `prefix`. */
  predicate StartsWith(s: string, prefix: string)
  {
    |prefix| <= |s| && s[..|prefix|] == prefix
  }

  /** `sub` occurs in `s` starting at index `i`. */
  predicate OccursAt(s: string, sub: string, i: nat)
  {
    i + |sub| <= |s| && s[i..i + |sub|] == sub
  }

  /** An occurrence in the tail of `s` is an occurrence in `s` one index on. */
  lemma OccursInTail(s: string, sub: string)
    requires s != []
    ensures forall i: nat :: OccursAt(s[1..], sub, i) <==> OccursAt(s, sub, i + 1)
  {
    forall i: nat
      ensures OccursAt(s[1..], sub, i) <==> OccursAt(s, sub, i + 1)
    {
      if i + 1 + |sub| <= |s| {
        assert s[1..][i..i + |sub|] == s[i + 1..i + 1 + |sub|];
      }
    }
  }

  /** JavaScript's `s.includes(sub)`: `sub` occurs somewhere in `s`. */
  function Contains(s: string, sub: string): (b: bool)
    ensures b <==> exists i: nat :: OccursAt(s, sub, i)
    decreases |s|
  {
    if StartsWith(s, sub) then
      assert OccursAt(s, sub, 0);
      true
    else if s == [] then
      false
    else
      OccursInTail(s, sub);
      assert !OccursAt(s, sub, 0);
      assert forall i: nat :: OccursAt(s, sub, i) ==> i > 0 && OccursAt(s[1..], sub, i - 1);
      Contains(s[1..], sub)
  }

  /** `toLowerCase` on one character, for the alphabets weather descriptions
      are written in: Latin A-Z, the Russian/Ukrainian capitals А-Я, the
      capitals Ѐ-Џ (Є, І, Ї, Ў, ...) and Ґ. */
  function LowerChar(c: char): (r: char)
    ensures IsUpper(c) ==> !IsUpper(r) && r != c && UpperChar(r) == c
    ensures !IsUpper(c) ==> r == c
  {
    if 'A' <= c <= 'Z' then (c as int + 32) as char
    else if 'А' <= c <= 'Я' then (c as int + 32) as char
    else if 'Ѐ' <= c <= 'Џ' then (c as int + 80) as char
    else if c == 'Ґ' then 'ґ'
    else c
  }

  /** The capital partner of each lower-case letter of the same alphabets:
      a-z, а-я, ѐ-џ and ґ; every other character is unchanged. */
  function UpperChar(c: char): char
  {
    if 'a' <= c <= 'z' then (c as int - 32) as char
    else if 'а' <= c <= 'я' then (c as int - 32) as char
    else if 'ѐ' <= c <= 'џ' then (c as int - 80) as char
    else if c == 'ґ' then 'Ґ'
    else c
  }

  predicate IsUpper(c: char)
  {
    'A' <= c <= 'Z' || 'Ѐ' <= c <= 'Я' || c == 'Ґ'
  }

  /** `toLowerCase` on a string, character by character. */
  function Lower(s: string): (r: string)
    ensures |r| == |s|
    ensures forall i :: 0 <= i < |s| ==> r[i] == LowerChar(s[i])
  {
    if s == [] then [] else [LowerChar(s[0])] + Lower(s[1..])
  }

  /** Lower-casing twice is lower-casing once, and a lower-cased string has
      no capital left in it. */
  lemma LowerIdempotent(s: string)
    ensures Lower(Lower(s)) == Lower(s)
    ensures forall i :: 0 <= i < |s| ==> !IsUpper(Lower(s)[i])
  {
  }
}
