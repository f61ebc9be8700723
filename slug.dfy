/**
 * Tag slugs and exercise names (`slugify` and `parse_exercise_id` in
 * fetch_workouts_from_ryot.py).
 *
 * slugify deletes every character outside a kept class, strips whitespace at both ends,
 * lowercases and turns spaces into underscores; each stage is a function below:
 * Filter, Strip, Lower, ReplaceSpaces.
 */
module Slug {
  import opened Wrappers

  /** Python's whitespace class: `\s` in a str pattern and `str.strip()` both test exactly these code points. */
  predicate IsWhitespace(c: char) {
    ('\U{9}' <= c <= '\U{D}') || ('\U{1C}' <= c <= ' ') || c == '\U{85}' || c == '\U{A0}' ||
    c == '\U{1680}' || ('\U{2000}' <= c <= '\U{200A}') || c == '\U{2028}' || c == '\U{2029}' ||
    c == '\U{202F}' || c == '\U{205F}' || c == '\U{3000}'
  }

  predicate IsUpper(c: char) { 'A' <= c <= 'Z' }
  predicate IsLower(c: char) { 'a' <= c <= 'z' }
  predicate IsDigit(c: char) { '0' <= c <= '9' }

  /** The characters the pattern `[^a-zA-Z0-9_\s-]` does NOT remove. */
  predicate Kept(c: char) {
    IsLower(c) || IsUpper(c) || IsDigit(c) || c == '_' || IsWhitespace(c) || c == '-'
  }

  /** The characters a slug may contain. */
  predicate SlugChar(c: char) {
    IsLower(c) || IsDigit(c) || c == '_' || c == '-' || (IsWhitespace(c) && c != ' ')
  }

  /** The character at index `i` of `s` may appear in a slug. */
  predicate SlugCharAt(s: string, i: nat)
    requires i < |s|
  {
    SlugChar(s[i])
  }

  /** A string slugify leaves as it is: slug characters only, no whitespace at either end. */
  predicate IsSlug(s: string) {
    (forall i: nat :: i < |s| ==> SlugCharAt(s, i)) &&
    (|s| > 0 ==> !IsWhitespace(s[0]) && !IsWhitespace(s[|s| - 1]))
  }

  /** The regular-expression substitution: every character outside the kept class is deleted. */
  function Filter(s: string): (r: string)
    ensures |r| <= |s|
    ensures forall i :: 0 <= i < |r| ==> Kept(r[i])
    ensures forall c :: c in r <==> c in s && Kept(c)
    ensures (forall i :: 0 <= i < |s| ==> Kept(s[i])) ==> r == s
  {
    if s == [] then []
    else if Kept(s[0]) then [s[0]] + Filter(s[1..])
    else Filter(s[1..])
  }

  /** Filtering text in two pieces filters each piece and keeps them in order. */
  lemma {:induction false} FilterAppend(a: string, b: string)
    ensures Filter(a + b) == Filter(a) + Filter(b)
  {
    if a == [] {
      assert a + b == b;
    } else {
      assert (a + b)[0] == a[0] && (a + b)[1..] == a[1..] + b;
      FilterAppend(a[1..], b);
    }
  }

  /** One character is kept exactly when it is in the kept class. */
  lemma FilterChar(c: char)
    ensures Filter([c]) == if Kept(c) then [c] else []
  {
    assert [c][1..] == [];
  }

  /** Leading whitespace removed: the longest suffix that does not start with whitespace. */
  function TrimStart(s: string): (r: string)
    ensures |r| <= |s| && r == s[|s| - |r|..]
    ensures forall i :: 0 <= i < |s| - |r| ==> IsWhitespace(s[i])
    ensures |r| > 0 ==> !IsWhitespace(r[0])
  {
    if |s| > 0 && IsWhitespace(s[0]) then TrimStart(s[1..]) else s
  }

  /** Trailing whitespace removed: the longest prefix that does not end with whitespace. */
  function TrimEnd(s: string): (r: string)
    ensures |r| <= |s| && r == s[..|r|]
    ensures forall i :: |r| <= i < |s| ==> IsWhitespace(s[i])
    ensures |r| > 0 ==> !IsWhitespace(r[|r| - 1])
  {
    if |s| > 0 && IsWhitespace(s[|s| - 1]) then TrimEnd(s[..|s| - 1]) else s
  }

  /** `r` is `s` from index `a` on, less some trailing text, and only whitespace was cut at either end. */
  predicate StrippedAt(s: string, r: string, a: nat) {
    a + |r| <= |s| && r == s[a..a + |r|] &&
    (forall i :: 0 <= i < a ==> IsWhitespace(s[i])) &&
    (forall i :: a + |r| <= i < |s| ==> IsWhitespace(s[i]))
  }

  /** `str.strip()` without arguments. */
  function Strip(s: string): (r: string)
    ensures |r| > 0 ==> !IsWhitespace(r[0]) && !IsWhitespace(r[|r| - 1])
    ensures forall k :: 0 <= k < |r| ==> r[k] in s
    ensures |r| <= |s|
    ensures exists a :: StrippedAt(s, r, a)
  {
    var t := TrimStart(s);
    var r := TrimEnd(t);
    StripKeepsChars(s, t, r);
    StripRemovesEnds(s, t, r);
    r
  }

  /** A prefix of a suffix of `s` holds only characters of `s`. */
  lemma StripKeepsChars(s: string, t: string, r: string)
    requires |t| <= |s| && t == s[|s| - |t|..]
    requires |r| <= |t| && r == t[..|r|]
    ensures forall k :: 0 <= k < |r| ==> r[k] in s
  {
    forall k | 0 <= k < |r| ensures r[k] in s {
      assert r[k] == s[|s| - |t| + k];
    }
  }

  /** Strip removes a leading run and a trailing run of whitespace, and nothing else. */
  lemma StripRemovesEnds(s: string, t: string, r: string)
    requires |t| <= |s| && t == s[|s| - |t|..] && forall i :: 0 <= i < |s| - |t| ==> IsWhitespace(s[i])
    requires |r| <= |t| && r == t[..|r|] && forall i :: |r| <= i < |t| ==> IsWhitespace(t[i])
    ensures exists a :: StrippedAt(s, r, a)
  {
    var a := |s| - |t|;
    assert r == s[a..a + |r|];
    forall i | a + |r| <= i < |s| ensures IsWhitespace(s[i]) {
      assert s[i] == t[i - a];
    }
    assert StrippedAt(s, r, a);
  }

  /** ASCII lowercasing of one character. */
  function LowerChar(c: char): char {
    if IsUpper(c) then c - 'A' + 'a' else c
  }

  /**
   * `str.lower()` applied to the filtered text: only ASCII letters and digits, `_`, `-`
   * and whitespace remain by then, and of these only the ASCII capitals change.
   */
  function Lower(s: string): (r: string)
    ensures |r| == |s|
    ensures forall i :: 0 <= i < |s| ==>
      !IsUpper(r[i]) &&
      (if IsUpper(s[i]) then IsLower(r[i]) && r[i] as int - s[i] as int == 'a' as int - 'A' as int else r[i] == s[i])
  {
    seq(|s|, i requires 0 <= i < |s| => LowerChar(s[i]))
  }

  /** `str.replace(" ", "_")`: only U+0020 is replaced, not other whitespace. */
  function ReplaceSpaces(s: string): (r: string)
    ensures |r| == |s| && ' ' !in r
    ensures forall i :: 0 <= i < |s| ==> r[i] == if s[i] == ' ' then '_' else s[i]
  {
    seq(|s|, i requires 0 <= i < |s| => if s[i] == ' ' then '_' else s[i])
  }

  /** What the last two stages make of one kept character. */
  lemma FinishChar(c: char)
    requires Kept(c)
    ensures var l := LowerChar(c); SlugChar(if l == ' ' then '_' else l)
    ensures var l := LowerChar(c); IsWhitespace(if l == ' ' then '_' else l) ==> IsWhitespace(c)
  {
  }

  /** Lowercasing and replacing spaces turn stripped, filtered text into a slug. */
  lemma FinishIsSlug(t: string)
    requires forall k :: 0 <= k < |t| ==> Kept(t[k])
    requires |t| > 0 ==> !IsWhitespace(t[0]) && !IsWhitespace(t[|t| - 1])
    ensures IsSlug(ReplaceSpaces(Lower(t)))
  {
    var r := ReplaceSpaces(Lower(t));
    forall k: nat | k < |r| ensures SlugCharAt(r, k) {
      FinishChar(t[k]);
    }
    if |r| > 0 {
      FinishChar(t[0]);
      FinishChar(t[|t| - 1]);
    }
  }

  /** `slugify`: every result is a slug, never longer than the input. */
  function Slugify(text: string): (r: string)
    ensures IsSlug(r)
    ensures |r| <= |text|
  {
    var t := Strip(Filter(text));
    FinishIsSlug(t);
    ReplaceSpaces(Lower(t))
  }

  /** Text with no whitespace at either end is left as it is by strip. */
  lemma StripUnchanged(t: string)
    requires |t| > 0 ==> !IsWhitespace(t[0]) && !IsWhitespace(t[|t| - 1])
    ensures Strip(t) == t
  {
  }

  /** Each stage of slugify leaves a slug as it is. */
  lemma SlugUnchanged(t: string)
    requires IsSlug(t)
    ensures Filter(t) == t && Strip(t) == t && Lower(t) == t && ReplaceSpaces(t) == t
  {
    assert forall i: nat :: i < |t| ==> Kept(t[i]) && !IsUpper(t[i]) && t[i] != ' ' by {
      forall i: nat | i < |t| ensures Kept(t[i]) && !IsUpper(t[i]) && t[i] != ' ' {
        assert SlugCharAt(t, i);
      }
    }
    StripUnchanged(t);
    LowerUnchanged(t);
    ReplaceSpacesUnchanged(t);
  }

  lemma LowerUnchanged(t: string)
    requires forall i :: 0 <= i < |t| ==> !IsUpper(t[i])
    ensures Lower(t) == t
  {
  }

  lemma ReplaceSpacesUnchanged(t: string)
    requires forall i :: 0 <= i < |t| ==> t[i] != ' '
    ensures ReplaceSpaces(t) == t
  {
  }

  /** A string is a fixed point of slugify exactly when it is a slug. */
  lemma SlugifyFixedPoints(t: string)
    ensures Slugify(t) == t <==> IsSlug(t)
  {
    if IsSlug(t) {
      SlugUnchanged(t);
    }
  }

  /** slugify is idempotent. */
  lemma SlugifyIdempotent(t: string)
    ensures Slugify(Slugify(t)) == Slugify(t)
  {
    SlugifyFixedPoints(Slugify(t));
  }

  /** The delimiter between an exercise's name and the rest of its identifier. */
  const Marker: string := "_reps_and_weight_usr_"

  /** The marker occurs in `s` starting at index `k`. */
  predicate OccursAt(s: string, k: nat) {
    k + |Marker| <= |s| && s[k..k + |Marker|] == Marker
  }

  /** The leftmost occurrence of the marker in `s` at or after `from`, if any. */
  function FirstOccurrence(s: string, from: nat): (r: Option<nat>)
    ensures r.Some? ==> from <= r.value && OccursAt(s, r.value)
    ensures r.Some? ==> forall k: nat :: from <= k < r.value ==> !OccursAt(s, k)
    ensures r.None? ==> forall k: nat :: from <= k ==> !OccursAt(s, k)
    decreases |s| - from
  {
    if from + |Marker| > |s| then None
    else if OccursAt(s, from) then Some(from)
    else FirstOccurrence(s, from + 1)
  }

  /** `exercise_id.split(Marker)[0]`: the text before the first marker, or the whole identifier. */
  function ExerciseName(id: string): (r: string)
    ensures |r| <= |id| && r == id[..|r|]
    ensures forall k: nat :: k < |r| ==> !OccursAt(id, k)
    ensures |r| < |id| ==> OccursAt(id, |r|)
  {
    match FirstOccurrence(id, 0)
    case Some(k) => id[..k]
    case None => id
  }

  /** `parse_exercise_id`: the slug of the exercise's name. */
  function ParseExerciseId(id: string): (r: string)
    ensures IsSlug(r)
  {
    Slugify(ExerciseName(id))
  }

  /** Whatever follows the first marker does not affect the exercise name. */
  lemma ParseIgnoresSuffix(name: string, rest1: string, rest2: string)
    ensures ParseExerciseId(name + Marker + rest1) == ParseExerciseId(name + Marker + rest2)
  {
    var s1, s2 := name + Marker + rest1, name + Marker + rest2;
    assert OccursAt(s1, |name|) && OccursAt(s2, |name|) by {
      assert s1[|name|..|name| + |Marker|] == Marker;
      assert s2[|name|..|name| + |Marker|] == Marker;
    }
    var n1, n2 := ExerciseName(s1), ExerciseName(s2);
    assert s1[..|name| + |Marker|] == s2[..|name| + |Marker|];
    SamePrefixSameName(s1, s2, |name| + |Marker|);
  }

  /** Two strings that agree on their first `n` characters have the marker at the same places before `n`. */
  lemma SamePrefixSameOccurrences(s1: string, s2: string, n: nat)
    requires n <= |s1| && n <= |s2| && s1[..n] == s2[..n]
    ensures forall k: nat :: k + |Marker| <= n ==> (OccursAt(s1, k) <==> OccursAt(s2, k))
  {
    forall k: nat | k + |Marker| <= n
      ensures OccursAt(s1, k) <==> OccursAt(s2, k)
    {
      assert s1[k..k + |Marker|] == s1[..n][k..k + |Marker|];
      assert s2[k..k + |Marker|] == s2[..n][k..k + |Marker|];
    }
  }

  /** Two identifiers that agree up to and including a marker occurrence have the same name. */
  lemma SamePrefixSameName(s1: string, s2: string, n: nat)
    requires n <= |s1| && n <= |s2| && s1[..n] == s2[..n]
    requires n >= |Marker| && OccursAt(s1, n - |Marker|)
    ensures ExerciseName(s1) == ExerciseName(s2)
  {
    var n1, n2 := ExerciseName(s1), ExerciseName(s2);
    SamePrefixSameOccurrences(s1, s2, n);
    assert OccursAt(s2, n - |Marker|);
    assert |n1| <= n - |Marker| && |n2| <= n - |Marker|;
    assert OccursAt(s1, |n1|) && OccursAt(s2, |n2|);
    assert |n1| == |n2|;
    assert n1 == s1[..n][..|n1|] && n2 == s2[..n][..|n2|];
  }

  /** An identifier `<name>_reps_and_weight_usr_<rest>` gives the slug of `<name>`, when no marker starts inside `<name>`. */
  lemma ParseNamedId(name: string, rest: string)
    requires forall k: nat :: k < |name| ==> !OccursAt(name + Marker, k)
    ensures ParseExerciseId(name + Marker + rest) == Slugify(name)
  {
    var s := name + Marker + rest;
    assert OccursAt(s, |name|) by { assert s[|name|..|name| + |Marker|] == Marker; }
    forall k: nat | k < |name|
      ensures !OccursAt(s, k)
    {
      assert !OccursAt(name + Marker, k);
      assert (name + Marker)[k..k + |Marker|] == s[k..k + |Marker|];
    }
    assert ExerciseName(s) == name;
  }

  /** An identifier without the marker is slugified whole. */
  lemma ParseWithoutMarker(id: string)
    requires forall k: nat :: !OccursAt(id, k)
    ensures ParseExerciseId(id) == Slugify(id)
  {
  }
}
