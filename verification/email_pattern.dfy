/** The e-mail check of the leave-request form: `/\S+@\S+\.\S+/.test(v)`.
    The regular expression is unanchored, so it asks whether SOME infix of
    the value is a run of non-space characters, an '@', another non-empty
    non-space run, a '.', and a last non-empty non-space run. */
module EmailPattern {
  import opened JsString

  /** No character of `s[lo..hi]` is white space. */
  predicate NonSpace(s: string, lo: int, hi: int)
    requires 0 <= lo <= hi <= |s|
  {
    forall m :: lo <= m < hi ==> !IsSpace(s[m])
  }

  /** `s[a..b]` matches `\S+@\S+\.\S+` with the '@' at `i` and the '.' at `j`. */
  predicate SpanMatches(s: string, a: int, i: int, j: int, b: int) {
    && 0 <= a < i && i + 2 <= j && j + 2 <= b <= |s|
    && NonSpace(s, a, i) && s[i] == '@'
    && NonSpace(s, i + 1, j) && s[j] == '.'
    && NonSpace(s, j + 1, b)
  }

  /** What `RegExp.prototype.test` answers for `\S+@\S+\.\S+` on `s`. */
  ghost predicate RegexTest(s: string) {
    exists a, i, j, b :: SpanMatches(s, a, i, j, b)
  }

  /** The shortest match around an '@' at `i` and a '.' at `j`: one
      non-space before the '@' and one after the '.'. */
  predicate MatchAt(s: string, i: int, j: int) {
    && 1 <= i && i + 2 <= j && j + 1 < |s|
    && !IsSpace(s[i - 1]) && s[i] == '@'
    && NonSpace(s, i + 1, j)
    && s[j] == '.' && !IsSpace(s[j + 1])
  }

  /** The regular expression matches exactly when a shortest match exists. */
  lemma RegexTestShortest(s: string)
    ensures RegexTest(s) <==> exists i, j :: MatchAt(s, i, j)
  {
    if RegexTest(s) {
      var a, i, j, b :| SpanMatches(s, a, i, j, b);
      assert MatchAt(s, i, j);
    }
    if exists i, j :: MatchAt(s, i, j) {
      var i, j :| MatchAt(s, i, j);
      assert SpanMatches(s, i - 1, i, j, j + 2);
    }
  }

  /** States of a left-to-right scan, named after how much of the pattern
      the characters just read can still begin. */
  datatype ScanState =
    | Outside   // at the start or just after white space
    | InWord    // inside a non-space run that has no usable '@' yet
    | AfterAt   // just read an '@' that has a non-space before it
    | InDomain  // at least one non-space since such an '@'
    | AfterDot  // just read a '.' at least two places after such an '@'
    | Found     // a match is complete

  function Step(st: ScanState, c: char): ScanState {
    if st == Found then Found
    else if IsSpace(c) then Outside
    else match st
      case Outside => InWord
      case InWord => if c == '@' then AfterAt else InWord
      case AfterAt => InDomain
      case InDomain => if c == '.' then AfterDot else InDomain
      case AfterDot => Found
  }

  /** Among the first `k` characters a shortest match is complete. */
  ghost predicate MatchBefore(s: string, k: int) {
    exists i, j :: MatchAt(s, i, j) && j + 1 < k
  }

  /** `s[i]` is an '@' preceded by a non-space, and `s[i+1..k]` has no space. */
  predicate OpenAt(s: string, i: int, k: int) {
    && 1 <= i < k <= |s|
    && !IsSpace(s[i - 1]) && s[i] == '@'
    && NonSpace(s, i + 1, k)
  }

  /** Some open '@' lies at least `gap` places before position `k`. */
  ghost predicate HasOpen(s: string, k: int, gap: int) {
    exists i :: OpenAt(s, i, k) && i + gap <= k
  }

  /** The state a scan of the first `k` characters must be in. */
  ghost function Expected(s: string, k: int): ScanState
    requires 0 <= k <= |s|
  {
    if MatchBefore(s, k) then Found
    else if 0 < k && s[k - 1] == '.' && HasOpen(s, k, 3) then AfterDot
    else if HasOpen(s, k, 2) then InDomain
    else if HasOpen(s, k, 1) then AfterAt
    else if 0 < k && !IsSpace(s[k - 1]) then InWord
    else Outside
  }

  lemma HasOpenStep(s: string, k: int, gap: int)
    requires 0 <= k < |s|
    ensures HasOpen(s, k + 1, gap) <==>
      || (!IsSpace(s[k]) && HasOpen(s, k, gap - 1))
      || (gap <= 1 && 1 <= k && !IsSpace(s[k - 1]) && s[k] == '@')
  {
    if HasOpen(s, k + 1, gap) {
      var i :| OpenAt(s, i, k + 1) && i + gap <= k + 1;
      if i < k {
        assert OpenAt(s, i, k) && i + gap - 1 <= k;
      }
    }
    if !IsSpace(s[k]) && HasOpen(s, k, gap - 1) {
      var i :| OpenAt(s, i, k) && i + gap - 1 <= k;
      assert OpenAt(s, i, k + 1);
    }
    if gap <= 1 && 1 <= k && !IsSpace(s[k - 1]) && s[k] == '@' {
      assert OpenAt(s, k, k + 1);
    }
  }

  lemma MatchBeforeStep(s: string, k: int)
    requires 0 <= k < |s|
    ensures MatchBefore(s, k + 1) <==>
      || MatchBefore(s, k)
      || (0 < k && s[k - 1] == '.' && HasOpen(s, k, 3) && !IsSpace(s[k]))
  {
    if MatchBefore(s, k + 1) && !MatchBefore(s, k) {
      var i, j :| MatchAt(s, i, j) && j + 1 < k + 1;
      assert j == k - 1;
      assert OpenAt(s, i, k);
    }
    if MatchBefore(s, k) {
      var i, j :| MatchAt(s, i, j) && j + 1 < k;
      assert MatchAt(s, i, j) && j + 1 < k + 1;
    }
    if 0 < k && s[k - 1] == '.' && HasOpen(s, k, 3) && !IsSpace(s[k]) {
      var i :| OpenAt(s, i, k) && i + 3 <= k;
      assert MatchAt(s, i, k - 1);
    }
  }

  /** An open '@' needs the character before position `k` to be non-space,
      and an open '@' at any distance is one at distance one. */
  lemma HasOpenFacts(s: string, k: int)
    requires 0 <= k <= |s|
    ensures HasOpen(s, k, 3) ==> HasOpen(s, k, 2)
    ensures HasOpen(s, k, 2) ==> HasOpen(s, k, 1)
    ensures HasOpen(s, k, 1) <==> HasOpen(s, k, 0)
    ensures HasOpen(s, k, 1) ==> 0 < k && !IsSpace(s[k - 1])
  {
    if HasOpen(s, k, 0) {
      var i :| OpenAt(s, i, k) && i <= k;
      assert OpenAt(s, i, k) && i + 1 <= k;
    }
  }

  /** One character moves the scan exactly as `Step` says. */
  lemma StepCorrect(s: string, k: int)
    requires 0 <= k < |s|
    ensures Expected(s, k + 1) == Step(Expected(s, k), s[k])
  {
    MatchBeforeStep(s, k);
    HasOpenStep(s, k, 3);
    HasOpenStep(s, k, 2);
    HasOpenStep(s, k, 1);
    HasOpenFacts(s, k);
    HasOpenFacts(s, k + 1);
  }

  lemma ScanStart(s: string)
    ensures Expected(s, 0) == Outside
  {
    assert !MatchBefore(s, 0);
    assert !HasOpen(s, 0, 1);
  }

  /** Scans `s` from position `k` on, starting in the state the first `k`
      characters lead to; ends in the state all of `s` leads to. */
  function ScanFrom(s: string, k: nat, st: ScanState): (r: ScanState)
    requires k <= |s| && st == Expected(s, k)
    ensures r == Expected(s, |s|)
    decreases |s| - k
  {
    if k == |s| then st
    else
      StepCorrect(s, k);
      ScanFrom(s, k + 1, Step(st, s[k]))
  }

  /** `/\S+@\S+\.\S+/.test(s)`, computed by one scan over `s`. */
  function IsEmailLike(s: string): (b: bool)
    ensures b <==> RegexTest(s)
  {
    ScanStart(s);
    RegexTestShortest(s);
    var st := ScanFrom(s, 0, Outside);
    assert st == Found <==> MatchBefore(s, |s|);
    st == Found
  }
}
