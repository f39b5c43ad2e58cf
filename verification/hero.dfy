/**
 * The typewriter headline of the hero section (components/Hero.tsx): it types
 * a word one character at a time, pauses, deletes it, and moves to the next
 * word. Each firing of the effect's timer is one `Step`; the 80/40/2500 ms
 * delays are left out.
 */
module Hero {

  /** The four rotating words, as in the source. */
  const Words: seq<string> := ["אוטומציה עסקית", "ארכיטקטורת AI", "מערכות אינטגרציה", "ייעול תהליכים"]

  datatype Typewriter = Typewriter(index: nat, subIndex: int, reverse: bool)

  const Initial: Typewriter := Typewriter(0, 0, false)

  /** The word the machine is on. */
  function Word(t: Typewriter): string
    requires t.index < |Words|
  {
    Words[t.index]
  }

  /** The forward phase is finished: one step past the full word. */
  predicate Typed(t: Typewriter)
    requires t.index < |Words|
  {
    t.subIndex == |Word(t)| + 1 && !t.reverse
  }

  /** The reverse phase is finished: everything deleted. */
  predicate Deleted(t: Typewriter) {
    t.subIndex == 0 && t.reverse
  }

  /** One transition of the effect. */
  function Step(t: Typewriter): (r: Typewriter)
    requires t.index < |Words|
    ensures r.index < |Words|
    ensures Typed(t) ==> r == t.(reverse := true)
    ensures Deleted(t) ==> r.index == (t.index + 1) % |Words| && r.subIndex == 0 && !r.reverse
    ensures !Typed(t) && !Deleted(t) ==> r.index == t.index && r.reverse == t.reverse
    ensures !Typed(t) && !Deleted(t) && !t.reverse ==> r.subIndex == t.subIndex + 1
    ensures !Typed(t) && !Deleted(t) && t.reverse ==> r.subIndex == t.subIndex - 1
    ensures r.index != t.index ==> Deleted(t)
  {
    if Typed(t) then t.(reverse := true)
    else if Deleted(t) then Typewriter((t.index + 1) % |Words|, t.subIndex, false)
    else t.(subIndex := t.subIndex + if t.reverse then -1 else 1)
  }

  /** What every reachable state satisfies. */
  predicate Inv(t: Typewriter) {
    t.index < |Words| && 0 <= t.subIndex <= |Words[t.index]| + 1
  }

  /** The step keeps the word index in [0, 4) and the cursor in [0, |word| + 1]. */
  lemma StepKeepsInv(t: Typewriter)
    requires Inv(t)
    ensures Inv(Step(t))
  {
  }

  /** `words[index].substring(0, subIndex)`: the prefix of the word of length `subIndex` clamped to [0, |word|]. */
  function Displayed(t: Typewriter): (s: string)
    requires t.index < |Words|
    ensures |s| <= |Word(t)| && s == Word(t)[..|s|]
    ensures 0 <= t.subIndex <= |Word(t)| ==> |s| == t.subIndex
    ensures t.subIndex > |Word(t)| ==> s == Word(t)
    ensures t.subIndex <= 0 ==> s == []
  {
    var w := Word(t);
    if t.subIndex <= 0 then [] else if t.subIndex >= |w| then w else w[..t.subIndex]
  }

  /** The state after `n` steps. */
  function Iterate(t: Typewriter, n: nat): (r: Typewriter)
    requires t.index < |Words|
    ensures r.index < |Words|
    decreases n
  {
    if n == 0 then t else Iterate(Step(t), n - 1)
  }

  lemma {:induction false} IterateAdd(t: Typewriter, a: nat, b: nat)
    requires t.index < |Words|
    ensures Iterate(t, a + b) == Iterate(Iterate(t, a), b)
    decreases a
  {
    if a > 0 {
      IterateAdd(Step(t), a - 1, b);
    }
  }

  /** Typing: from cursor `k` the forward phase reaches `|word| + 1` in `|word| + 1 - k` steps. */
  lemma {:induction false} TypeOut(i: nat, k: nat)
    requires i < |Words| && k <= |Words[i]| + 1
    ensures Iterate(Typewriter(i, k, false), |Words[i]| + 1 - k) == Typewriter(i, |Words[i]| + 1, false)
    decreases |Words[i]| + 1 - k
  {
    if k < |Words[i]| + 1 {
      TypeOut(i, k + 1);
    }
  }

  /** Deleting: from cursor `k` the reverse phase reaches 0 in `k` steps. */
  lemma {:induction false} DeleteOut(i: nat, k: nat)
    requires i < |Words| && k <= |Words[i]| + 1
    ensures Iterate(Typewriter(i, k, true), k) == Typewriter(i, 0, true)
  {
    if k > 0 {
      DeleteOut(i, k - 1);
    }
  }

  /** A full cycle on word `i` takes `2 * |word| + 4` steps and ends at the start of the next word. */
  lemma WordCycle(i: nat)
    requires i < |Words|
    ensures Iterate(Typewriter(i, 0, false), 2 * |Words[i]| + 4) == Typewriter((i + 1) % |Words|, 0, false)
  {
    var n := |Words[i]|;
    var start := Typewriter(i, 0, false);
    TypeOut(i, 0);
    IterateAdd(start, n + 1, 1);
    var turned := Typewriter(i, n + 1, true);
    assert Iterate(start, n + 2) == turned;
    DeleteOut(i, n + 1);
    IterateAdd(start, n + 2, n + 1);
    IterateAdd(start, 2 * n + 3, 1);
  }

  /** After all four words, 128 steps, the headline is back where it started. */
  lemma FullRotation()
    ensures Iterate(Initial, 128) == Initial
  {
    var s0, s1, s2, s3 := Typewriter(0, 0, false), Typewriter(1, 0, false), Typewriter(2, 0, false), Typewriter(3, 0, false);
    assert |Words[0]| == 14 && |Words[1]| == 13 && |Words[2]| == 16 && |Words[3]| == 13;
    WordCycle(0);
    assert Iterate(s0, 32) == s1;
    WordCycle(1);
    assert Iterate(s1, 30) == s2;
    WordCycle(2);
    assert Iterate(s2, 36) == s3;
    WordCycle(3);
    assert Iterate(s3, 30) == s0;
    IterateAdd(s0, 32, 30);
    IterateAdd(s0, 62, 36);
    IterateAdd(s0, 98, 30);
  }
}
