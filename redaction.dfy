/** The UUID shown after a successful start (app.py:92):
    `uuid[:4] + "..." + uuid[-4:]`, with Python's slice semantics. */
module Redaction {
  import opened Wrappers

  /** Python's normalisation of a slice bound `i` on a sequence of length `n`:
      a negative bound counts from the end, and the result is clamped to `0..n`. */
  function SliceBound(n: nat, i: int): (k: nat)
    ensures k <= n
  {
    if i < 0 then (if n + i < 0 then 0 else n + i)
    else if i > n then n
    else i
  }

  /** `s[start:stop]` in Python, a missing bound taking its default. */
  function Slice(s: string, start: Option<int>, stop: Option<int>): (r: string)
    ensures |r| <= |s|
  {
    var lo := if start.Some? then SliceBound(|s|, start.value) else 0;
    var hi := if stop.Some? then SliceBound(|s|, stop.value) else |s|;
    if lo < hi then s[lo..hi] else ""
  }

  const Ellipsis := "..."

  function Min(a: int, b: int): int { if a < b then a else b }

  /** `s[:k]` is the first `min(k, |s|)` characters and `s[-k:]` the last
      `min(k, |s|)`, for every `k >= 0`; `s[-0:]` is `s[0:]`, the whole of `s`. */
  lemma SliceEnds(s: string, k: nat)
    ensures Slice(s, None, Some(k)) == s[..Min(k, |s|)]
    ensures k > 0 ==> Slice(s, Some(-(k as int)), None) == s[|s| - Min(k, |s|)..]
    ensures Slice(s, Some(-0), None) == s
  {
  }

  /** The displayed form of the identity. */
  function Redact(uuid: string): string {
    Slice(uuid, None, Some(4)) + Ellipsis + Slice(uuid, Some(-4), None)
  }

  /** The shown form is the first and the last `min(4, |uuid|)` characters
      joined by "...", so its length is `2 * min(4, |uuid|) + 3`. */
  lemma RedactShape(uuid: string)
    ensures var m := Min(4, |uuid|);
      Redact(uuid) == uuid[..m] + Ellipsis + uuid[|uuid| - m..] &&
      |Redact(uuid)| == 2 * m + 3
  {
  }

  /** For identities of at least eight characters, the two ends do not overlap. */
  lemma RedactLong(uuid: string)
    requires |uuid| >= 8
    ensures Redact(uuid) == uuid[0..4] + "..." + uuid[|uuid| - 4..]
  {
  }

  /** An identity of at most four characters is shown in full, twice. */
  lemma RedactShortExposes(uuid: string)
    requires |uuid| <= 4
    ensures Redact(uuid) == uuid + "..." + uuid
  {
  }

  /** Up to eight characters nothing is hidden: two identities of the same
      length at most 8 that are shown alike are equal, because the two ends
      shown cover the whole identity. */
  lemma RedactRevealsShort(u: string, v: string)
    requires |u| == |v| <= 8 && Redact(u) == Redact(v)
    ensures u == v
  {
    RedactShape(u);
    RedactShape(v);
    var m := Min(4, |u|);
    var r := Redact(u);
    forall i | 0 <= i < |u|
      ensures u[i] == v[i]
    {
      if i < m {
        assert u[i] == r[i] == v[i];
      } else {
        assert u[i] == r[m + 3 + (i - (|u| - m))] == v[i];
      }
    }
  }

  /** Nothing between the first four and the last four characters reaches the
      display: identities that agree on both ends are shown identically. */
  lemma RedactHidesMiddle(u: string, v: string)
    requires |u| >= 8 && |v| >= 8
    requires u[..4] == v[..4] && u[|u| - 4..] == v[|v| - 4..]
    ensures Redact(u) == Redact(v)
  {
  }

  lemma RedactExample()
    ensures Redact("abcd1234efgh") == "abcd...efgh"
  {
  }
}
