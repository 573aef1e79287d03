/**
 * Property-name validation done by EnhancedPropertiesContainer before any
 * lookup: Java's `String.trim`, then a check for null or empty.
 */
module PropertyNames {
  import opened Wrappers
  import opened Environment

  /** `String.trim` strips every character at or below U+0020, not only spaces. */
  predicate IsBlank(c: char) {
    c <= ' '
  }

  function LeadingBlanks(s: string): (n: nat)
    ensures n <= |s|
    ensures forall k :: 0 <= k < n ==> IsBlank(s[k])
    ensures n < |s| ==> !IsBlank(s[n])
    decreases |s|
  {
    if s != [] && IsBlank(s[0]) then 1 + LeadingBlanks(s[1..]) else 0
  }

  function TrailingBlanks(s: string): (n: nat)
    ensures n <= |s|
    ensures forall k :: |s| - n <= k < |s| ==> IsBlank(s[k])
    ensures n < |s| ==> !IsBlank(s[|s| - 1 - n])
    decreases |s|
  {
    if s != [] && IsBlank(s[|s| - 1]) then 1 + TrailingBlanks(s[..|s| - 1]) else 0
  }

  /** `String.trim`: the infix of `s` left when blanks are cut from both ends. */
  function Trim(s: string): (r: string)
    ensures |r| <= |s|
    ensures r == [] <==> forall k :: 0 <= k < |s| ==> IsBlank(s[k])
    ensures r != [] ==> !IsBlank(r[0]) && !IsBlank(r[|r| - 1])
    // r is what lies between the leading blanks and the trailing blanks
    ensures LeadingBlanks(s) + |r| <= |s| && r == s[LeadingBlanks(s)..LeadingBlanks(s) + |r|]
    ensures forall k :: LeadingBlanks(s) + |r| <= k < |s| ==> IsBlank(s[k])
  {
    var lead := LeadingBlanks(s);
    if lead == |s| then [] else s[lead..|s| - TrailingBlanks(s)]
  }

  /**
   * `validatePropertyName`: the trimmed name, or PropertyInvalidException
   * for a null name or one that trims to nothing.  The exception carries the
   * trimmed name (or null), because the parameter is reassigned before the
   * message is built.
   */
  function ValidatePropertyName(name: Option<string>): (r: Result<string, Error>)
    ensures r.Success? <==> name.Some? && exists k :: 0 <= k < |name.value| && !IsBlank(name.value[k])
    ensures r.Success? ==> r.value == Trim(name.value)
    ensures r.Success? ==> r.value != [] && !IsBlank(r.value[0]) && !IsBlank(r.value[|r.value| - 1])
    ensures r.Failure? ==> r.error == PropertyInvalid(if name.Some? then Some(Trim(name.value)) else None)
  {
    var trimmed := if name.Some? then Some(Trim(name.value)) else None;
    if trimmed.None? || trimmed.value == [] then
      Failure(PropertyInvalid(trimmed))
    else
      Success(trimmed.value)
  }

  /** Trimming twice is trimming once. */
  lemma TrimIdempotent(s: string)
    ensures Trim(Trim(s)) == Trim(s)
  {
  }

  /** A name that passed validation passes again unchanged: what reaches the resolvers is already trimmed. */
  lemma ValidatedNameIsStable(name: Option<string>)
    requires ValidatePropertyName(name).Success?
    ensures ValidatePropertyName(Some(ValidatePropertyName(name).value)) == ValidatePropertyName(name)
  {
    TrimIdempotent(name.value);
  }
}
