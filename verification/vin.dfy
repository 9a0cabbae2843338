/**
 VIN input normalisation and the format check `validateVIN`. The check looks at
 the length and at the three letters a VIN never uses (I, O, Q) and nothing else:
 it does not restrict the character class and does not verify the check digit.
 */
module Vin {
  import opened Text

  const VinLength: nat := 17

  /** The letters `/[IOQ]/` matches. */
  predicate IsForbidden(c: char) {
    c == 'I' || c == 'O' || c == 'Q'
  }

  /** The letters that become forbidden once the input is upper-cased. */
  predicate IsForbiddenAnyCase(c: char) {
    IsForbidden(c) || c == 'i' || c == 'o' || c == 'q'
  }

  /** `/[IOQ]/.test(s)`: some character of `s` is I, O or Q. */
  function ContainsForbidden(s: string): (found: bool)
    ensures found <==> exists i :: 0 <= i < |s| && IsForbidden(s[i])
  {
    if s == [] then false else IsForbidden(s[0]) || ContainsForbidden(s[1..])
  }

  /** `validateVIN`: exactly 17 characters, none of them I, O or Q. */
  function ValidateVin(vin: string): (ok: bool)
    ensures ok <==> |vin| == VinLength && forall i :: 0 <= i < |vin| ==> !IsForbidden(vin[i])
  {
    if |vin| != VinLength then false
    else if ContainsForbidden(vin) then false
    else true
  }

  /** The submit handler's reading of the VIN field: trimmed, then upper-cased. */
  function Normalize(raw: string): (vin: string)
    ensures IsTrimmed(vin) && |vin| == |Trim(raw)|
    ensures forall i :: 0 <= i < |vin| ==> !IsLowerAscii(vin[i])
  {
    ToUpperKeepsWhitespace(Trim(raw));
    ToUpper(Trim(raw))
  }

  /** Upper-casing first and trimming second gives the same VIN. */
  lemma NormalizeEitherOrder(raw: string)
    ensures Normalize(raw) == Trim(ToUpper(raw))
  {
    TrimToUpperCommute(raw);
  }

  lemma UpperForbidden(c: char)
    ensures IsForbidden(UpperChar(c)) <==> IsForbiddenAnyCase(c)
  {
  }

  lemma NormalizeIdempotent(raw: string)
    ensures Normalize(Normalize(raw)) == Normalize(raw)
  {
    var t := Trim(raw);
    TrimIdempotent(t);
    TrimToUpperCommute(t);
    ToUpperIdempotent(t);
  }

  /** Whitespace around the VIN field does not count towards the 17 characters or the letters. */
  lemma NormalizeIgnoresPadding(front: string, raw: string, back: string)
    requires AllWhitespace(front) && AllWhitespace(back)
    ensures Normalize(front + raw + back) == Normalize(raw)
  {
    TrimIgnoresPadding(front, raw, back);
  }

  /**
   What the handler accepts, stated on the raw field: after trimming, exactly 17
   characters, with no I, O or Q in either case.
   */
  lemma {:induction false} NormalizedVinValid(raw: string)
    ensures ValidateVin(Normalize(raw)) <==>
      |Trim(raw)| == VinLength && forall i :: 0 <= i < |Trim(raw)| ==> !IsForbiddenAnyCase(Trim(raw)[i])
  {
    var t := Trim(raw);
    var v := Normalize(raw);
    assert v == ToUpper(t);
    forall i | 0 <= i < |t|
      ensures IsForbidden(v[i]) <==> IsForbiddenAnyCase(t[i])
    {
      assert v[i] == UpperChar(t[i]);
      UpperForbidden(t[i]);
    }
  }

  /** A lower-case i, o or q anywhere in the raw field is rejected just like its capital. */
  lemma LowerCaseForbiddenRejected(raw: string, i: nat)
    requires i < |raw| && IsForbiddenAnyCase(raw[i])
    ensures !ValidateVin(Normalize(raw))
  {
    var a, b := TrimFrom(raw), TrimTo(raw);
    assert !IsWhitespace(raw[i]);
    assert a <= i < b;
    assert Trim(raw)[i - a] == raw[i];
    NormalizedVinValid(raw);
  }

  /** No character-class restriction: punctuation and all-digit VINs pass. */
  lemma NonAlphanumericAccepted()
    ensures ValidateVin("-----------------")
    ensures ValidateVin("12345678901234567")
    ensures !ValidateVin("1234567890123456")
    ensures !ValidateVin("1HGCM82633A00435O")
  {
    var dashes := "-----------------";
    assert forall i :: 0 <= i < |dashes| ==> dashes[i] == '-';
    var digits := "12345678901234567";
    assert forall i :: 0 <= i < |digits| ==> IsDigit(digits[i]);
    var withO := "1HGCM82633A00435O";
    assert IsForbidden(withO[16]);
  }
}
