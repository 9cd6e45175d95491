/**
 * Character classes and the building blocks of Python `re.search` as the
 * extractor uses it: a leftmost scan over start positions, maximal runs of a
 * character class, literals, fixed-shape fields and greedy backtracking
 * before a literal.
 */
module Text {
  import opened Wrappers

  /** Python's `\s` on `str` patterns: the characters for which `str.isspace()` holds. */
  predicate IsSpace(c: char) {
    c == ' ' || c == '\t' || c == '\n' || c == '\r' || c == '\U{0B}' || c == '\U{0C}'
    || ('\U{1C}' <= c <= '\U{1F}') || c == '\U{85}' || c == '\U{A0}' || c == '\U{1680}'
    || ('\U{2000}' <= c <= '\U{200A}') || c == '\U{2028}' || c == '\U{2029}'
    || c == '\U{202F}' || c == '\U{205F}' || c == '\U{3000}'
  }

  predicate IsNonSpace(c: char) { !IsSpace(c) }

  /** `\d`, restricted to the ASCII digits. */
  predicate IsDigit(c: char) { '0' <= c <= '9' }

  predicate IsLower(c: char) { 'a' <= c <= 'z' }
  predicate IsUpper(c: char) { 'A' <= c <= 'Z' }
  predicate IsLetter(c: char) { IsLower(c) || IsUpper(c) }

  /** The capital of an ASCII lower-case letter; every other character is its own. */
  function ToUpper(c: char): char {
    if IsLower(c) then (c as int - 32) as char else c
  }

  /** The small letter of an ASCII capital; every other character is its own. */
  function ToLower(c: char): char {
    if IsUpper(c) then (c as int + 32) as char else c
  }

  /** `.` without DOTALL: anything but a newline. */
  predicate NotNewline(c: char) { c != '\n' }

  /** The end of the maximal run of characters satisfying `p` that starts at `i`. */
  function Span(s: string, i: nat, p: char -> bool): (r: nat)
    requires i <= |s|
    ensures i <= r <= |s|
    ensures forall k :: i <= k < r ==> p(s[k])
    ensures r == |s| || !p(s[r])
    decreases |s| - i
  {
    if i == |s| || !p(s[i]) then i else Span(s, i + 1, p)
  }

  /** The end of the line that contains position `i` (what a greedy `.*` reaches). */
  function LineEnd(s: string, i: nat): (r: nat)
    requires i <= |s|
    ensures i <= r <= |s|
    ensures forall k :: i <= k < r ==> s[k] != '\n'
    ensures r == |s| || s[r] == '\n'
  {
    Span(s, i, NotNewline)
  }

  predicate LiteralAt(s: string, i: nat, lit: string) {
    i + |lit| <= |s| && s[i..i + |lit|] == lit
  }

  /**
   * A fixed-shape field: every '9' of `shape` stands for one digit, every
   * other character stands for itself.
   */
  predicate ShapeAt(s: string, i: nat, shape: string) {
    i + |shape| <= |s|
    && forall k :: 0 <= k < |shape| ==>
         if shape[k] == '9' then IsDigit(s[i + k]) else s[i + k] == shape[k]
  }

  /**
   * `re.search`: the leftmost start position `from <= p <= |s|` at which the
   * pattern `m` matches, with what it captured there.
   */
  function FirstMatch<T>(s: string, from: nat, m: (string, nat) -> Option<T>): (r: Option<(nat, T)>)
    ensures r.Some? ==>
      from <= r.value.0 <= |s| && m(s, r.value.0) == Some(r.value.1)
      && forall q :: from <= q < r.value.0 ==> m(s, q).None?
    ensures r.None? ==> forall q :: from <= q <= |s| ==> m(s, q).None?
    decreases |s| + 1 - from
  {
    if from > |s| then None
    else match m(s, from)
      case Some(v) => Some((from, v))
      case None => FirstMatch(s, from + 1, m)
  }

  /**
   * Greedy backtracking: the largest split point `k` in `lo..hi` at which the
   * rest of the pattern (`ok`) succeeds.
   */
  function LastSplit(lo: nat, hi: nat, ok: nat -> bool): (r: Option<nat>)
    ensures r.Some? ==>
      lo <= r.value <= hi && ok(r.value) && forall k :: r.value < k <= hi ==> !ok(k)
    ensures r.None? ==> forall k :: lo <= k <= hi ==> !ok(k)
    decreases hi
  {
    if hi < lo then None
    else if ok(hi) then Some(hi)
    else if hi == 0 then None
    else LastSplit(lo, hi - 1, ok)
  }

  /** Lemma: a run is maximal in exactly one place. */
  lemma SpanIs(s: string, i: nat, j: nat, p: char -> bool)
    requires i <= j <= |s|
    requires forall k :: i <= k < j ==> p(s[k])
    requires j == |s| || !p(s[j])
    ensures Span(s, i, p) == j
  {
  }

  /** What `FirstMatch` promises, one position at a time. */
  lemma FirstMatchMisses<T>(s: string, from: nat, m: (string, nat) -> Option<T>, q: nat)
    requires from <= q <= |s|
    requires FirstMatch(s, from, m).None? || (FirstMatch(s, from, m).Some? && q < FirstMatch(s, from, m).value.0)
    ensures m(s, q).None?
  {
  }

  /** Lemma: a literal occurrence fixes every character it covers. */
  lemma LiteralAtChar(s: string, i: nat, lit: string, k: nat)
    requires LiteralAt(s, i, lit) && k < |lit|
    ensures s[i + k] == lit[k]
  {
    assert s[i..i + |lit|][k] == s[i + k];
  }

  /** Lemma: a literal can only occur where its first character does. */
  lemma LiteralAtStart(s: string, i: nat, lit: string)
    requires |lit| > 0
    ensures LiteralAt(s, i, lit) ==> i < |s| && s[i] == lit[0]
  {
    if LiteralAt(s, i, lit) {
      LiteralAtChar(s, i, lit, 0);
    }
  }

  lemma ShapeAtChar(s: string, i: nat, shape: string, k: nat)
    requires ShapeAt(s, i, shape) && k < |shape|
    ensures if shape[k] == '9' then IsDigit(s[i + k]) else s[i + k] == shape[k]
  {
  }
}
