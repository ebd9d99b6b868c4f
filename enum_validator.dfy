/**
 * The @ValueInEnum constraint: a string field is valid when it is null or when its
 * upper-cased form is the name of one of the enum's constants.
 */
module EnumValidation {
  import opened Wrappers

  /** Upper-casing of one character (ASCII letters only). */
  function UpperChar(c: char): char {
    if 'a' <= c <= 'z' then (c as int - 32) as char else c
  }

  predicate IsUpper(s: string) {
    forall i :: 0 <= i < |s| ==> !('a' <= s[i] <= 'z')
  }

  /** String.toUpperCase, restricted to ASCII letters. */
  function ToUpper(s: string): (r: string)
    ensures |r| == |s|
    ensures forall i :: 0 <= i < |s| ==> r[i] == UpperChar(s[i])
  {
    if s == [] then [] else [UpperChar(s[0])] + ToUpper(s[1..])
  }

  lemma ToUpperIsUpper(s: string)
    ensures IsUpper(ToUpper(s))
  {
  }

  /** Upper-casing leaves an upper-case string alone. */
  lemma {:induction false} ToUpperFixesUpper(s: string)
    requires IsUpper(s)
    ensures ToUpper(s) == s
  {
    if s != [] {
      ToUpperFixesUpper(s[1..]);
    }
  }

  lemma ToUpperIdempotent(s: string)
    ensures ToUpper(ToUpper(s)) == ToUpper(s)
  {
    ToUpperIsUpper(s);
    ToUpperFixesUpper(ToUpper(s));
  }

  /** String.equalsIgnoreCase, with the same ASCII restriction. */
  predicate EqualsIgnoreCase(a: string, b: string) {
    ToUpper(a) == ToUpper(b)
  }

  /** The names of the OperationType and CurrencyType constants, in declaration order. */
  const OperationTypeNames: seq<string> := ["DEBIT", "CREDIT", "TRANSFER", "CASH_WITHDRAWAL"]
  const CurrencyTypeNames: seq<string> := ["PEN", "USD", "EUR"]

  /** The membership test of isValid: null passes, anything else passes iff its upper-cased form is accepted. */
  predicate Accepts(accepted: seq<string>, value: Option<string>) {
    value.None? || ToUpper(value.value) in accepted
  }

  /**
   * Against a list of upper-case constant names (as enum names are), the test is exactly
   * "equal to some constant name, ignoring case".
   */
  lemma AcceptsIffMatchesIgnoringCase(accepted: seq<string>, value: string)
    requires forall i :: 0 <= i < |accepted| ==> IsUpper(accepted[i])
    ensures Accepts(accepted, Some(value)) <==> exists i :: 0 <= i < |accepted| && EqualsIgnoreCase(value, accepted[i])
  {
    if Accepts(accepted, Some(value)) {
      var i :| 0 <= i < |accepted| && accepted[i] == ToUpper(value);
      ToUpperIdempotent(value);
      assert EqualsIgnoreCase(value, accepted[i]);
    }
    if i :| 0 <= i < |accepted| && EqualsIgnoreCase(value, accepted[i]) {
      ToUpperFixesUpper(accepted[i]);
      assert ToUpper(value) == accepted[i];
    }
  }

  /** Two spellings that differ only in case get the same verdict. */
  lemma AcceptsIsCaseInsensitive(accepted: seq<string>, a: string, b: string)
    requires EqualsIgnoreCase(a, b)
    ensures Accepts(accepted, Some(a)) == Accepts(accepted, Some(b))
  {
  }

  lemma OperationTypeNamesAreUpper()
    ensures forall i :: 0 <= i < |OperationTypeNames| ==> IsUpper(OperationTypeNames[i])
  {
  }

  /** The upper-cased form of a string, checked character by character. */
  lemma ToUpperIs(s: string, t: string)
    requires |s| == |t| && forall i :: 0 <= i < |s| ==> UpperChar(s[i]) == t[i]
    ensures ToUpper(s) == t
  {
  }

  /** "debit" and "DEBIT" are both valid operation types, and so is a null value. */
  lemma DebitAcceptedInAnyCase()
    ensures Accepts(OperationTypeNames, Some("debit"))
    ensures Accepts(OperationTypeNames, Some("DEBIT"))
    ensures Accepts(OperationTypeNames, None)
  {
    ToUpperIs("debit", "DEBIT");
    ToUpperIs("DEBIT", "DEBIT");
  }

  /** The currency field: "usd" passes as USD, a currency outside CurrencyType does not. */
  lemma CurrencyCheckedIgnoringCase()
    ensures Accepts(CurrencyTypeNames, Some("usd"))
    ensures Accepts(CurrencyTypeNames, Some("Pen"))
    ensures !Accepts(CurrencyTypeNames, Some("gbp"))
  {
    ToUpperIs("usd", "USD");
    ToUpperIs("Pen", "PEN");
    ToUpperIs("gbp", "GBP");
  }

  /** A value outside the enum is invalid whatever its case. */
  lemma RefundRejected()
    ensures !Accepts(OperationTypeNames, Some("refund"))
  {
    ToUpperIs("refund", "REFUND");
  }

  /**
   * ValueInEnumValidator. `acceptedValues` is None until initialize runs (the Java field is null).
   */
  class ValueInEnumValidator {
    var acceptedValues: Option<seq<string>>

    constructor ()
      ensures acceptedValues == None
    {
      acceptedValues := None;
    }

    /** initialize: the accepted list becomes the names of the annotation's enum constants. */
    method Initialize(enumConstantNames: seq<string>)
      modifies this
      ensures acceptedValues == Some(enumConstantNames)
    {
      acceptedValues := Some(enumConstantNames);
    }

    /**
     * isValid. A null value is valid without consulting the list; a non-null value on an
     * uninitialised validator would dereference the null list, so that call is excluded.
     */
    method IsValid(value: Option<string>) returns (valid: bool)
      requires value.Some? ==> acceptedValues.Some?
      ensures value.None? ==> valid
      ensures value.Some? ==> (valid <==> ToUpper(value.value) in acceptedValues.value)
    {
      if value.None? {
        return true;
      }
      valid := ToUpper(value.value) in acceptedValues.value;
    }
  }
}
