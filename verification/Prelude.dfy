/** Values shared by every component of the engine model. */
module Prelude {
  datatype Option<+T> = None | Some(value: T)

  const MAX_U64: nat := 0xFFFF_FFFF_FFFF_FFFF

  function Min(a: int, b: int): int { if a <= b then a else b }

  function Max(a: int, b: int): int { if a <= b then b else a }

  /** `u64::saturating_add`. */
  function SatAdd(a: nat, b: nat): nat { Min(MAX_U64, a + b) }

  /** `u64::saturating_sub`. */
  function SatSub(a: nat, b: nat): nat { if b <= a then a - b else 0 }

  type Byte = b: int | 0 <= b < 256

  predicate HasAt<T(==)>(text: seq<T>, needle: seq<T>, i: int) {
    0 <= i && i + |needle| <= |text| && text[i..i + |needle|] == needle
  }

  /** The first place where `needle` occurs. */
  function IndexOf<T(==)>(text: seq<T>, needle: seq<T>): (r: Option<nat>)
    ensures r.Some? ==> HasAt(text, needle, r.value)
    decreases |text|
  {
    if |needle| > |text| then None
    else if text[..|needle|] == needle then Some(0)
    else if text == [] then None
    else
      var rest := IndexOf(text[1..], needle);
      if rest.Some? then Some(rest.value + 1) else None
  }

  lemma {:induction false} FirstIndex<T>(text: seq<T>, needle: seq<T>, k: nat)
    requires HasAt(text, needle, k) && forall i :: 0 <= i < k ==> !HasAt(text, needle, i)
    ensures IndexOf(text, needle) == Some(k)
    decreases |text|
  {
    if k > 0 {
      assert !HasAt(text, needle, 0);
      forall i | 0 <= i && i + |needle| < |text| ensures HasAt(text[1..], needle, i) <==> HasAt(text, needle, i + 1) {
        assert text[1..][i..i + |needle|] == text[i + 1..i + 1 + |needle|];
      }
      FirstIndex(text[1..], needle, k - 1);
    }
  }

  /** What `IndexOf` finds is the first occurrence, and it finds one if there is one. */
  lemma {:induction false} IndexIsFirst<T>(text: seq<T>, needle: seq<T>)
    ensures forall i :: 0 <= i < |text| && HasAt(text, needle, i) ==>
      IndexOf(text, needle).Some? && IndexOf(text, needle).value <= i
    decreases |text|
  {
    forall k | 0 <= k < |text| && HasAt(text, needle, k)
      ensures IndexOf(text, needle).Some? && IndexOf(text, needle).value <= k
    {
      if k > 0 {
        assert text[1..][k - 1..k - 1 + |needle|] == text[k..k + |needle|];
        assert HasAt(text[1..], needle, k - 1);
        IndexIsFirst(text[1..], needle);
      }
    }
  }

  /** The bound on a response and on its decoded body. */
  const MAX_RESPONSE_BYTES := 65_536

  /** Bytes of a string in UTF-8. */
  function Utf8Length(s: string): nat { if s == [] then 0 else Utf8Width(s[0]) + Utf8Length(s[1..]) }

  function Utf8Width(c: char): nat {
    if c as int < 0x80 then 1 else if c as int < 0x800 then 2 else if c as int < 0x1_0000 then 3 else 4
  }

  function LowerChar(c: char): char { if 'A' <= c <= 'Z' then c - 'A' + 'a' else c }

  /** ASCII letters in lower case. */
  function Lower(s: string): string { seq(|s|, i requires 0 <= i < |s| => LowerChar(s[i])) }

  lemma SubsetSize<T>(a: set<T>, b: set<T>)
    requires a <= b
    ensures |a| <= |b|
  {
    assert b == a + (b - a);
  }
}
