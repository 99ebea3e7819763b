/**
 Strings and nullable values as the routing code sees them: Kotlin's
 `String?` becomes `Option<string>`, and the two string helpers the
 deep-link extractor relies on (`nullIfEmpty` and `endsWith`) are defined
 here once, with the facts about them that the routing proofs use.
 */
module Text {

  /** Kotlin's nullable reference: `None` stands for `null`. */
  datatype Option<+T> = None | Some(value: T)

  /** `s?.nullIfEmpty()`: a missing or empty string both become `null`. */
  function NullIfEmpty(s: Option<string>): (r: Option<string>)
    ensures r.Some? <==> s.Some? && s.value != []
    ensures r.Some? ==> r.value == s.value
  {
    match s
    case None => None
    case Some(v) => if v == [] then None else Some(v)
  }

  /** Kotlin's case-sensitive `s.endsWith(suffix)`: the last `|suffix|` characters of `s` are `suffix`. */
  predicate EndsWith(s: string, suffix: string)
    ensures EndsWith(s, suffix) <==>
      |suffix| <= |s| && forall k :: 0 <= k < |suffix| ==> s[|s| - |suffix| + k] == suffix[k]
  {
    |suffix| <= |s| && s[|s| - |suffix|..] == suffix
  }

  /** `s` ends with `suffix` exactly when `s` is some string followed by `suffix`. */
  lemma {:induction false} EndsWithIffSplit(s: string, suffix: string)
    ensures EndsWith(s, suffix) <==> exists p: string :: s == p + suffix
  {
    if EndsWith(s, suffix) {
      var p := s[..|s| - |suffix|];
      assert s == p + suffix;
    }
    if exists p: string :: s == p + suffix {
      var p: string :| s == p + suffix;
      assert s[|s| - |suffix|..] == suffix;
    }
  }

  /**
   When `c + t` is a suffix of `s + t` and `s` is not empty, the character
   right before `t` in `s + t` is the last character of `s`, so it is `c`.
   */
  lemma {:induction false} SuffixCharacter(s: string, c: char, t: string)
    requires s != []
    requires EndsWith(s + t, [c] + t)
    ensures s[|s| - 1] == c
  {
    var w := s + t;
    assert w[|w| - |[c] + t|..] == [c] + t;
    assert w[|s| - 1] == ([c] + t)[0];
  }
}
