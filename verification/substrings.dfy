/** Substring search, as `std::string::find(sub) != std::string::npos` performs it:
    a linear scan for the first index at which `sub` occurs. */
module Substrings {
  import opened Optional

  /** `sub` occurs in `s` starting at index `i`. This is the reference definition the
      search below is proved against. */
  predicate OccursAt<T(==)>(s: seq<T>, sub: seq<T>, i: int)
  {
    0 <= i && i + |sub| <= |s| && s[i..i + |sub|] == sub
  }

  /** The first index at or after `from` where `sub` occurs in `s`, if any. */
  function IndexOfFrom<T(==)>(s: seq<T>, sub: seq<T>, from: nat): (r: Option<nat>)
    ensures r.Some? ==> from <= r.value && OccursAt(s, sub, r.value)
    ensures r.Some? ==> forall j :: from <= j < r.value ==> !OccursAt(s, sub, j)
    ensures r.None? ==> forall j :: from <= j ==> !OccursAt(s, sub, j)
    decreases |s| - from
  {
    if from + |sub| > |s| then None
    else if s[from..from + |sub|] == sub then Some(from)
    else IndexOfFrom(s, sub, from + 1)
  }

  /** `s.find(sub)`: the first index where `sub` occurs, `None` standing for `npos`. */
  function IndexOf<T(==)>(s: seq<T>, sub: seq<T>): (r: Option<nat>)
    ensures r.Some? ==> OccursAt(s, sub, r.value)
    ensures r.Some? ==> forall j :: 0 <= j < r.value ==> !OccursAt(s, sub, j)
    ensures r.None? <==> forall j :: !OccursAt(s, sub, j)
  {
    IndexOfFrom(s, sub, 0)
  }

  /** `s.find(sub) != npos`. */
  function Contains<T(==)>(s: seq<T>, sub: seq<T>): (b: bool)
    ensures b <==> exists i :: OccursAt(s, sub, i)
  {
    IndexOf(s, sub).Some?
  }

  /** Whatever surrounds an occurrence, the search still finds it. */
  lemma ContainsInContext<T>(prefix: seq<T>, s: seq<T>, suffix: seq<T>, sub: seq<T>)
    requires Contains(s, sub)
    ensures Contains(prefix + s + suffix, sub)
  {
    var i :| OccursAt(s, sub, i);
    var t := prefix + s + suffix;
    assert t[|prefix| + i..|prefix| + i + |sub|] == s[i..i + |sub|];
    assert OccursAt(t, sub, |prefix| + i);
  }

  /** A sequence always contains itself, so `prefix + sub + suffix` contains `sub`. */
  lemma ContainsOwnOccurrence<T>(prefix: seq<T>, sub: seq<T>, suffix: seq<T>)
    ensures Contains(prefix + sub + suffix, sub)
  {
    assert OccursAt(sub, sub, 0);
    ContainsInContext(prefix, sub, suffix, sub);
  }
}
