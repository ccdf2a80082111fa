/**
  Text pre-processing before the module is parsed: `removeUnhandledText`
  replaces the first `...` placeholder by nothing, as the string-pattern form
  of `String.prototype.replace` does (ECMA-262, section 22.1.3.19): only the
  leftmost occurrence is replaced, every later one stays.
 */
module TextPrep {
  import opened Estree

  /** The placeholder text stripped before parsing. */
  const Placeholder: string := "..."

  /** `pat` occurs in `s` starting at index `i`. */
  predicate OccursAt(s: string, pat: string, i: nat)
  {
    i + |pat| <= |s| && s[i..i + |pat|] == pat
  }

  /** `pat` occurs nowhere in `s`. */
  predicate Absent(s: string, pat: string)
  {
    forall j :: 0 <= j <= |s| ==> !OccursAt(s, pat, j)
  }

  /** The leftmost occurrence of `pat` in `s` starts at `i`. */
  predicate FirstAt(s: string, pat: string, i: nat)
  {
    OccursAt(s, pat, i) && forall j :: 0 <= j < i ==> !OccursAt(s, pat, j)
  }

  /** The leftmost index at or after `from` at which `pat` occurs in `s`. */
  function FirstOccurrence(s: string, pat: string, from: nat): (r: Option<nat>)
    requires from <= |s|
    decreases |s| - from
    ensures r.Some? ==> from <= r.value && OccursAt(s, pat, r.value)
    ensures r.Some? ==> forall j :: from <= j < r.value ==> !OccursAt(s, pat, j)
    ensures r.None? ==> forall j :: from <= j <= |s| ==> !OccursAt(s, pat, j)
  {
    if OccursAt(s, pat, from) then Some(from)
    else if from == |s| then None
    else FirstOccurrence(s, pat, from + 1)
  }

  /** `data.replace('...', '')`: text without a placeholder comes back
      unchanged; otherwise exactly the leftmost placeholder is cut out. */
  function RemoveUnhandledText(data: string): (r: string)
    ensures Absent(data, Placeholder) ==> r == data
    ensures !Absent(data, Placeholder) ==> |r| == |data| - |Placeholder|
    ensures forall i: nat :: FirstAt(data, Placeholder, i) ==> r == data[..i] + data[i + 3..]
  {
    match FirstOccurrence(data, Placeholder, 0)
    case None => data
    case Some(i) => data[..i] + data[i + 3..]
  }

  /** Every `...` after the first one survives, shifted left by the three
      removed characters; text before the first one keeps its positions. */
  lemma LaterPlaceholdersSurvive(data: string, i: nat, k: nat)
    requires FirstAt(data, Placeholder, i)
    requires i + 3 <= k && OccursAt(data, Placeholder, k)
    ensures OccursAt(RemoveUnhandledText(data), Placeholder, k - 3)
    ensures RemoveUnhandledText(data)[..i] == data[..i]
  {
  }
}
