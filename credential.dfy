/**
 * The credential form schema (`createCredentialSchema`): a name of 1 to 30
 * characters and a value of 1 to 1000 characters. Lengths are JavaScript
 * string lengths, counted in UTF-16 code units.
 */
module Credential {

  /** The UTF-16 length of a string: characters beyond the Basic Multilingual Plane count twice. */
  function Utf16Length(s: string): (n: nat)
    ensures |s| <= n <= 2 * |s|
    ensures n == 0 <==> s == []
  {
    if s == [] then 0 else (if s[0] as int < 0x1_0000 then 1 else 2) + Utf16Length(s[1..])
  }

  datatype Field = Name | Value

  /** A failed check of the schema: a string longer than `max` or shorter than `min`. */
  datatype Issue = TooBig(field: Field, max: nat) | TooSmall(field: Field, min: nat)

  /** The checks of one string field, in declaration order: `.max(max)`, then `.nonempty()`. */
  function FieldIssues(f: Field, s: string, max: nat): (r: seq<Issue>)
    ensures r == [] <==> 1 <= Utf16Length(s) <= max
    ensures TooSmall(f, 1) in r <==> s == []
    ensures TooBig(f, max) in r <==> Utf16Length(s) > max
  {
    (if Utf16Length(s) > max then [TooBig(f, max)] else [])
    + (if Utf16Length(s) < 1 then [TooSmall(f, 1)] else [])
  }

  /** Every issue the schema reports for a submitted name and value. */
  function CredentialIssues(name: string, value: string): (r: seq<Issue>)
    ensures r == [] <==> 1 <= Utf16Length(name) <= 30 && 1 <= Utf16Length(value) <= 1000
  {
    FieldIssues(Name, name, 30) + FieldIssues(Value, value, 1000)
  }

  /** A form passes the schema exactly when neither field reports an issue. */
  predicate ValidCredential(name: string, value: string) {
    CredentialIssues(name, value) == []
  }

  /** The issues name their field: a name problem never blames the value and vice versa. */
  lemma IssuesNameTheirField(name: string, value: string)
    ensures forall i :: 0 <= i < |CredentialIssues(name, value)| ==>
      (CredentialIssues(name, value)[i].field == Name <==> i < |FieldIssues(Name, name, 30)|)
  {
  }

  /** Any 30 characters of the Basic Multilingual Plane make an acceptable name. */
  lemma {:induction false} BmpLength(s: string)
    requires forall i :: 0 <= i < |s| ==> s[i] as int < 0x1_0000
    ensures Utf16Length(s) == |s|
  {
    if s != [] {
      BmpLength(s[1..]);
    }
  }
}
