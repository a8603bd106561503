/** Turning the classifier's output into a letter: `indexOf(Math.max(...))` picks the first
    position of the largest probability, and that position indexes the alphabet. */
module Labels {
  import opened Extrema

  /** The 26 classes of the classifier, in output order. */
  const Alphabet: string := "ABCDEFGHIJKLMNOPQRSTUVWXYZ"

  /** One value per class, in the order of the alphabet. */
  type Probabilities = p: seq<real> | |p| == 26 witness seq(26, k => 0.0)

  /** `Array.prototype.indexOf`: the first position holding v, or -1 when no position does. */
  function IndexOf(s: seq<real>, v: real): (r: int)
    ensures -1 <= r < |s|
    ensures r == -1 <==> v !in s
    ensures 0 <= r ==> s[r] == v && forall k :: 0 <= k < r ==> s[k] != v
  {
    if |s| == 0 then -1
    else if s[0] == v then 0
    else
      var r := IndexOf(s[1..], v);
      assert forall k :: 1 <= k < |s| ==> s[k] == s[1..][k - 1];
      assert s == [s[0]] + s[1..];
      if r == -1 then -1 else r + 1
  }

  /** `predictionData.indexOf(Math.max(...predictionData))`: a position of a largest value,
      and the first such position. */
  function ArgMax(p: seq<real>): (r: nat)
    requires |p| > 0
    ensures r < |p|
    ensures forall k :: 0 <= k < |p| ==> p[k] <= p[r]
    ensures forall k :: 0 <= k < r ==> p[k] < p[r]
  {
    MaxOfBounds(p);
    IndexOf(p, MaxOf(p))
  }

  /** A position is chosen exactly when it holds a largest value and every earlier position
      holds a smaller one. */
  lemma FirstMaximum(p: seq<real>, i: nat)
    requires i < |p|
    ensures ArgMax(p) == i <==>
      (forall k :: 0 <= k < |p| ==> p[k] <= p[i]) && (forall k :: 0 <= k < i ==> p[k] < p[i])
  {
  }

  /** `"ABCDEFGHIJKLMNOPQRSTUVWXYZ".split("")`: each letter as a one-character string. */
  function Letters(): (r: seq<string>)
    ensures |r| == 26
    ensures forall k :: 0 <= k < 26 ==> r[k] == [Alphabet[k]]
  {
    seq(26, k requires 0 <= k < 26 => [Alphabet[k]])
  }

  /** The letters are pairwise different, so a label names exactly one class. */
  lemma LettersDistinct(i: nat, j: nat)
    requires i < 26 && j < 26 && i != j
    ensures Letters()[i] != Letters()[j]
  {
    assert forall k :: 0 <= k < 26 ==> Alphabet[k] as int == 'A' as int + k;
  }

  /** `labels[maxIndex]`: the letter of the first largest probability. */
  function Label(p: Probabilities): (r: string)
    ensures r in Letters()
  {
    Letters()[ArgMax(p)]
  }

  /** The label is the letter of position i exactly when i is the first largest probability. */
  lemma LabelOfFirstMaximum(p: Probabilities, i: nat)
    requires i < 26
    ensures Label(p) == Letters()[i] <==>
      (forall k :: 0 <= k < 26 ==> p[k] <= p[i]) && (forall k :: 0 <= k < i ==> p[k] < p[i])
  {
    FirstMaximum(p, i);
    if ArgMax(p) != i {
      LettersDistinct(ArgMax(p), i);
    }
  }

  /** Ties go to the earlier class: with 0.9 at the second and third positions the letter is
      "B", not "C". */
  lemma TieGoesToFirst(p: Probabilities)
    requires p == [0.2, 0.9, 0.9] + seq(23, k => 0.1)
    ensures ArgMax(p) == 1 && Label(p) == "B"
  {
    FirstMaximum(p, 1);
  }

  /** A classifier certain of the first class yields "A". */
  lemma OneHotFirstLetter(p: Probabilities)
    requires p == [1.0] + seq(25, k => 0.0)
    ensures ArgMax(p) == 0 && Label(p) == "A"
  {
    FirstMaximum(p, 0);
  }
}
