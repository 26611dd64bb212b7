/**
 * The debounce loop at the top of `i2cTriggerOnChangeSDA`: SDA is read twice
 * in a row until both reads agree. The firmware repeats without bound; here
 * the reads are a given finite sequence of pairs, one pair per iteration, and
 * running out of pairs is reported as "no stable level".
 */
module Debounce {

  datatype Option<T> = None | Some(value: T)

  /** One iteration of the loop: the two reads agree. */
  predicate Agree(pair: (bool, bool)) {
    pair.0 == pair.1
  }

  /**
   * The level of the first pair of reads that agree, or None when no pair
   * agrees.
   */
  method StableLevel(samples: seq<(bool, bool)>) returns (level: Option<bool>)
    ensures level.None? <==> forall k :: 0 <= k < |samples| ==> !Agree(samples[k])
    ensures level.Some? ==>
              exists k :: 0 <= k < |samples| && Agree(samples[k]) && level.value == samples[k].0
                          && forall j :: 0 <= j < k ==> !Agree(samples[j])
  {
    var i := 0;
    while i < |samples| && samples[i].0 != samples[i].1
      invariant 0 <= i <= |samples|
      invariant forall j :: 0 <= j < i ==> !Agree(samples[j])
    {
      i := i + 1;
    }
    if i < |samples| {
      level := Some(samples[i].0);
    } else {
      level := None;
    }
  }
}
