/**
 * The personal-information step: the five fixed field keys, their Enter-key
 * order, JavaScript's `String.prototype.trim`, the fixed error messages and
 * the set of errors that validation of step 0 reports.
 */
module Validation {
  import opened Artifacts

  datatype FieldKey = FullName | Dob | Nationality | Address | GovID

  /** Every key the form data object holds. */
  const AllFields: set<FieldKey> := {FullName, Dob, Nationality, Address, GovID}

  /** The order in which Enter moves focus from field to field. */
  const FieldOrder: seq<FieldKey> := [FullName, Dob, Nationality, Address, GovID]

  lemma EveryKeyIsAField(k: FieldKey)
    ensures k in AllFields && k in FieldOrder
  {
  }

  /** `Array.prototype.indexOf`: the first position of `x`, or -1. */
  function IndexOf<T(==)>(s: seq<T>, x: T): (r: int)
    ensures -1 <= r < |s|
    ensures r == -1 <==> x !in s
    ensures 0 <= r ==> s[r] == x && forall j :: 0 <= j < r ==> s[j] != x
  {
    if s == [] then -1
    else if s[0] == x then 0
    else
      var i := IndexOf(s[1..], x);
      if i == -1 then -1 else i + 1
  }

  /**
   * The field that Enter moves focus to, or None when Enter on the current
   * field submits the step instead.
   */
  function NextField(current: FieldKey): (r: Option<FieldKey>)
    ensures r.None? <==> current == GovID
    ensures r.Some? ==> IndexOf(FieldOrder, r.value) == IndexOf(FieldOrder, current) + 1
  {
    var i := IndexOf(FieldOrder, current);
    if i < |FieldOrder| - 1 then Some(FieldOrder[i + 1]) else None
  }

  /**
   * The code points `trim` removes: the ECMAScript WhiteSpace and
   * LineTerminator characters.
   */
  predicate IsJsWhitespace(c: char)
  {
    var n := c as int;
    n == 0x09 || n == 0x0A || n == 0x0B || n == 0x0C || n == 0x0D || n == 0x20 ||
    n == 0xA0 || n == 0x1680 || (0x2000 <= n <= 0x200A) || n == 0x2028 || n == 0x2029 ||
    n == 0x202F || n == 0x205F || n == 0x3000 || n == 0xFEFF
  }

  /** `trimStart`: drops the leading whitespace, keeps the rest as it is. */
  function TrimStart(s: string): (r: string)
    ensures |r| <= |s| && r == s[|s| - |r|..]
    ensures forall i :: 0 <= i < |s| - |r| ==> IsJsWhitespace(s[i])
    ensures r != [] ==> !IsJsWhitespace(r[0])
  {
    if s != [] && IsJsWhitespace(s[0]) then TrimStart(s[1..]) else s
  }

  /** `trimEnd`: drops the trailing whitespace, keeps the rest as it is. */
  function TrimEnd(s: string): (r: string)
    ensures |r| <= |s| && r == s[..|r|]
    ensures forall i :: |r| <= i < |s| ==> IsJsWhitespace(s[i])
    ensures r != [] ==> !IsJsWhitespace(r[|r| - 1])
  {
    if s != [] && IsJsWhitespace(s[|s| - 1]) then TrimEnd(s[..|s| - 1]) else s
  }

  /**
   * `trim`. The result is empty exactly when every character is whitespace;
   * otherwise it starts and ends with a non-whitespace character, and a
   * string that already does so is left as it is.
   */
  function Trim(s: string): (r: string)
    ensures |r| <= |s|
    ensures r == [] <==> forall i :: 0 <= i < |s| ==> IsJsWhitespace(s[i])
    ensures r != [] ==> !IsJsWhitespace(r[0]) && !IsJsWhitespace(r[|r| - 1])
    ensures s != [] && !IsJsWhitespace(s[0]) && !IsJsWhitespace(s[|s| - 1]) ==> r == s
    ensures exists a, b ::
              && 0 <= a <= b <= |s| && r == s[a..b]
              && (forall i :: 0 <= i < a ==> IsJsWhitespace(s[i]))
              && (forall i :: b <= i < |s| ==> IsJsWhitespace(s[i]))
  {
    var t := TrimStart(s);
    var r := TrimEnd(t);
    var a := |s| - |t|;
    assert r == s[a..a + |r|];
    forall i | a + |r| <= i < |s| ensures IsJsWhitespace(s[i]) {
      assert s[i] == t[i - a];
    }
    r
  }

  /**
   * Whether validation counts a field as missing: the date of birth only
   * when it is the empty string, every other field when it is empty once
   * trimmed.
   */
  predicate IsBlankField(k: FieldKey, value: string)
  {
    if k == Dob then value == "" else Trim(value) == ""
  }

  /** The fixed message validation reports for a missing field. */
  function Message(k: FieldKey): string
  {
    match k
    case FullName => "Name is required"
    case Dob => "Date of birth is required"
    case Nationality => "Nationality is required"
    case Address => "Address is required"
    case GovID => "ID is required"
  }

  /** The errors validation of step 0 reports for the given form data. */
  function BlankErrors(formData: map<FieldKey, string>): map<FieldKey, string>
  {
    map k | k in formData && IsBlankField(k, formData[k]) :: Message(k)
  }

  /**
   * What "blank" means, character by character: the date of birth only
   * when empty, a text field when it holds whitespace and nothing else.
   */
  lemma BlankMeansWhitespaceOnly(k: FieldKey, value: string)
    ensures IsBlankField(k, value) <==>
      if k == Dob then value == [] else forall i :: 0 <= i < |value| ==> IsJsWhitespace(value[i])
  {
  }

  /** The date of birth is not trimmed: a single space passes for it but not for a name. */
  lemma DobIsNotTrimmed()
    ensures !IsBlankField(Dob, " ") && IsBlankField(FullName, " ")
  {
  }

  /** Validation reports every blank field at once, each with its own message, and nothing else. */
  lemma BlankErrorsAreExactlyTheBlankFields(formData: map<FieldKey, string>)
    ensures forall k :: k in BlankErrors(formData) <==> k in formData && IsBlankField(k, formData[k])
    ensures forall k :: k in BlankErrors(formData) ==> BlankErrors(formData)[k] == Message(k)
    ensures BlankErrors(formData) == map[] <==> forall k :: k in formData ==> !IsBlankField(k, formData[k])
  {
  }

  /** `errors` reports exactly the blank fields among `checked`, each with its message. */
  ghost predicate ReportsBlanks(errors: map<FieldKey, string>, formData: map<FieldKey, string>, checked: set<FieldKey>)
  {
    && (forall k :: k in errors <==> k in checked && k in formData && IsBlankField(k, formData[k]))
    && (forall k :: k in errors ==> errors[k] == Message(k))
  }

  /** Checking one more field keeps the report exact. */
  lemma ReportOneMore(errors: map<FieldKey, string>, formData: map<FieldKey, string>, checked: set<FieldKey>, k: FieldKey)
    requires ReportsBlanks(errors, formData, checked) && k in formData
    ensures ReportsBlanks(if IsBlankField(k, formData[k]) then errors[k := Message(k)] else errors,
                          formData, checked + {k})
  {
  }

  /** A report over every field is the validation result. */
  lemma ReportOfAllFields(errors: map<FieldKey, string>, formData: map<FieldKey, string>)
    requires ReportsBlanks(errors, formData, AllFields)
    ensures errors == BlankErrors(formData)
  {
  }
}
