/** Global matching of a pattern over a text, the way
    `String.prototype.match` with the `g` flag does it: try the pattern at a
    position; on a match record it and resume where it ended, otherwise move
    on by one character. The pattern is any matcher that, tried at a
    position, fails or yields one non-empty match starting there. */
module Scanning {
  import opened Seqs

  /** One match: it covers `text[start..end]` and captured the key `id`. */
  datatype Hit = Hit(start: nat, end: nat, id: string)

  /** `m`, tried at any position of a text of length `n`, fails or yields a
      non-empty match that starts there and ends inside the text. */
  ghost predicate Advances(m: nat -> Option<Hit>, n: nat)
  {
    forall i: nat :: i < n && m(i).Some? ==> m(i).value.start == i < m(i).value.end <= n
  }

  /** The matches of `m` from `pos` on: leftmost first, each starting where
      the previous one ended or later. */
  function ScanFrom(m: nat -> Option<Hit>, n: nat, pos: nat): (hits: seq<Hit>)
    requires pos <= n && Advances(m, n)
    ensures forall k :: 0 <= k < |hits| ==> pos <= hits[k].start < hits[k].end <= n
    ensures forall k, l :: 0 <= k < l < |hits| ==> hits[k].end <= hits[l].start
    decreases n - pos
  {
    if pos == n then []
    else match m(pos)
      case Some(h) => [h] + ScanFrom(m, n, h.end)
      case None => ScanFrom(m, n, pos + 1)
  }

  /** Every hit is what the matcher yields at the hit's start. */
  lemma {:induction false} HitsAreMatches(m: nat -> Option<Hit>, n: nat, pos: nat)
    requires pos <= n && Advances(m, n)
    ensures forall k :: 0 <= k < |ScanFrom(m, n, pos)| ==> m(ScanFrom(m, n, pos)[k].start) == Some(ScanFrom(m, n, pos)[k])
    decreases n - pos
  {
    if pos < n {
      var hits := ScanFrom(m, n, pos);
      match m(pos)
      case Some(h) =>
        var rest := ScanFrom(m, n, h.end);
        HitsAreMatches(m, n, h.end);
        assert hits == [h] + rest;
        forall k | 0 <= k < |hits| ensures m(hits[k].start) == Some(hits[k]) {
          if k > 0 {
            assert hits[k] == rest[k - 1];
          }
        }
      case None =>
        var next := pos + 1;
        assert hits == ScanFrom(m, n, next);
        HitsAreMatches(m, n, next);
    }
  }

  /** The scan skips no match: every position from `pos` on where the matcher
      succeeds lies inside one of the hits. The hits are therefore exactly
      the leftmost, non-overlapping matches. */
  lemma {:induction false} Covers(m: nat -> Option<Hit>, n: nat, pos: nat, i: nat)
    requires pos <= i < n && Advances(m, n) && m(i).Some?
    ensures exists k :: 0 <= k < |ScanFrom(m, n, pos)| && ScanFrom(m, n, pos)[k].start <= i < ScanFrom(m, n, pos)[k].end
    decreases n - pos
  {
    var hits := ScanFrom(m, n, pos);
    match m(pos)
    case Some(h) =>
      var rest := ScanFrom(m, n, h.end);
      assert hits == [h] + rest;
      if h.end <= i {
        Covers(m, n, h.end, i);
        var k :| 0 <= k < |rest| && rest[k].start <= i < rest[k].end;
        assert hits[k + 1] == rest[k];
      } else {
        assert hits[0] == h;
      }
    case None =>
      var next := pos + 1;
      assert hits == ScanFrom(m, n, next);
      Covers(m, n, next, i);
  }

  /** Where the matcher never succeeds from `pos` on, the scan finds nothing. */
  lemma {:induction false} NoMatchFromHere(m: nat -> Option<Hit>, n: nat, pos: nat)
    requires pos <= n && Advances(m, n)
    requires forall i :: pos <= i < n ==> m(i).None?
    ensures ScanFrom(m, n, pos) == []
    decreases n - pos
  {
    if pos < n {
      NoMatchFromHere(m, n, pos + 1);
    }
  }
}
