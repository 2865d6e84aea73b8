/** The MILD counters of sequence_tagger_model.py (`calculate_mild_f`, `calculate_mild_m`).
    Both are written as "split the flag string on one digit and measure the non-empty
    fragments"; the lemmas show that this only counts the other digit. */
module Mild {
  import opened Strings
  import opened Sequences

  /** One per-epoch correctness flag: 1 for a correct prediction, 0 otherwise. */
  type Flag = x: int | 0 <= x <= 1

  function Digit(f: Flag): char {
    if f == 1 then '1' else '0'
  }

  /** `''.join([str(int(item)) for item in flags])` */
  function FlagsString(flags: seq<Flag>): (s: string)
    ensures |s| == |flags|
  {
    if flags == [] then "" else [Digit(flags[0])] + FlagsString(flags[1..])
  }

  /** `calculate_mild_f`: total length of the fragments left after splitting on '0'. */
  function CalculateMildF(flags: seq<Flag>): nat
  {
    var forgetting := NonEmpty(Split(FlagsString(flags), '0'));
    if |forgetting| != 0 then |Concat(forgetting)| else 0
  }

  /** `calculate_mild_m`: total length of the fragments left after splitting on '1'. */
  function CalculateMildM(flags: seq<Flag>): nat
  {
    var memorization := NonEmpty(Split(FlagsString(flags), '1'));
    if |memorization| != 0 then |Concat(memorization)| else 0
  }

  lemma {:induction false} RemoveDigitLength(flags: seq<Flag>, v: Flag)
    ensures |Remove(FlagsString(flags), Digit(v))| == |flags| - Count(flags, v)
  {
    if flags != [] {
      RemoveDigitLength(flags[1..], v);
      var s := FlagsString(flags);
      assert s[0] == Digit(flags[0]) && s[1..] == FlagsString(flags[1..]);
    }
  }

  /** Measuring the fragments of a split on `Digit(v)` counts the flags different from `v`. */
  lemma SplitFragmentsLength(flags: seq<Flag>, v: Flag)
    ensures var fragments := NonEmpty(Split(FlagsString(flags), Digit(v)));
            (if |fragments| != 0 then |Concat(fragments)| else 0) == |flags| - Count(flags, v)
  {
    var s := FlagsString(flags);
    ConcatNonEmpty(Split(s, Digit(v)));
    ConcatSplit(s, Digit(v));
    RemoveDigitLength(flags, v);
  }

  /** `calculate_mild_f` is the number of correct epochs, `calculate_mild_m` the number of
      incorrect ones, so together they count every flag. */
  lemma MildCounts(flags: seq<Flag>)
    ensures CalculateMildF(flags) == Count(flags, 1)
    ensures CalculateMildM(flags) == Count(flags, 0)
    ensures CalculateMildF(flags) + CalculateMildM(flags) == |flags|
  {
    SplitFragmentsLength(flags, 0);
    SplitFragmentsLength(flags, 1);
    CountComplement(flags);
  }

  lemma {:induction false} CountComplement(flags: seq<Flag>)
    ensures Count(flags, 0) + Count(flags, 1) == |flags|
  {
    if flags != [] {
      CountComplement(flags[1..]);
    }
  }
}
