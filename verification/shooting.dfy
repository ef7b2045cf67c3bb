/** Shooting statistics: lap index -> firing-line index -> shot outcomes. */
module Shooting {

  /** The stats entry one range visit creates: `lines` firing lines with no shots. */
  function EmptyEntry(lines: nat): (entry: seq<seq<bool>>)
    ensures |entry| == lines
    ensures forall j :: 0 <= j < lines ==> entry[j] == []
  {
    seq(lines, j => [])
  }

  /**
   * `initShootingStats`: one empty entry is appended when there are no more
   * entries than the current lap index; otherwise the stats are kept.
   */
  function InitShootingStats(stats: seq<seq<seq<bool>>>, currentLap: nat, lines: nat)
    : (r: seq<seq<seq<bool>>>)
    ensures |stats| <= currentLap ==> |r| == |stats| + 1 && r[|stats|] == EmptyEntry(lines)
    ensures currentLap < |stats| ==> |r| == |stats|
    ensures r[..|stats|] == stats
  {
    if |stats| <= currentLap then stats + [EmptyEntry(lines)] else stats
  }

  /**
   * After the range entry, an entry for the current lap exists exactly when the
   * stats already reached that lap: one append cannot close a wider gap.
   */
  lemma InitReachesCurrentLapIff(stats: seq<seq<seq<bool>>>, currentLap: nat, lines: nat)
    ensures currentLap < |InitShootingStats(stats, currentLap, lines)| <==> currentLap <= |stats|
  {
  }

  /** Number of hits among the outcomes, counted from the back. */
  function Hits(shots: seq<bool>): (n: nat)
    ensures n <= |shots|
  {
    if |shots| == 0 then 0
    else Hits(shots[..|shots| - 1]) + (if shots[|shots| - 1] then 1 else 0)
  }

  /** Recording one more outcome raises the count by one exactly for a hit. */
  lemma HitsAppend(shots: seq<bool>, outcome: bool)
    ensures Hits(shots + [outcome]) == Hits(shots) + (if outcome then 1 else 0)
  {
    assert (shots + [outcome])[..|shots|] == shots;
  }

  /** A line of `n` hits counts `n`. */
  lemma {:induction false} HitsAllTrue(n: nat)
    ensures Hits(seq(n, i => true)) == n
  {
    if n > 0 {
      HitsAllTrue(n - 1);
      assert seq(n, i => true) == seq(n - 1, i => true) + [true];
      HitsAppend(seq(n - 1, i => true), true);
    }
  }

  /** The count agrees with the multiplicity of `true` among the outcomes. */
  lemma {:induction false} HitsIsTrueCount(shots: seq<bool>)
    ensures Hits(shots) == multiset(shots)[true]
  {
    if |shots| > 0 {
      var init := shots[..|shots| - 1];
      assert shots == init + [shots[|shots| - 1]];
      HitsIsTrueCount(init);
    }
  }

  /** `countHits`: the loop over the outcomes of one firing line. */
  method CountHits(shots: seq<bool>) returns (count: nat)
    ensures count == Hits(shots)
    ensures count == multiset(shots)[true]
    ensures count <= |shots|
  {
    count := 0;
    var i := 0;
    while i < |shots|
      invariant 0 <= i <= |shots|
      invariant count == Hits(shots[..i])
    {
      assert shots[..i + 1][..i] == shots[..i];
      if shots[i] {
        count := count + 1;
      }
      i := i + 1;
    }
    assert shots[..|shots|] == shots;
    HitsIsTrueCount(shots);
  }
}
