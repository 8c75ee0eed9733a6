/** The agent's only source of nondeterminism, `random.randint`, as an
    injected oracle: a draw is any natural number, and the call maps it
    into the requested inclusive range. Every value of the range is the
    image of some draw, so a draw stream can stand for any run of the
    real random source. */
module RandomDraws {
  import opened Outcomes

  /** randint(lo, hi) on a range known to be non-empty. */
  function Uniform(lo: int, hi: int, draw: nat): (v: int)
    requires lo <= hi
    ensures lo <= v <= hi
  {
    lo + draw % (hi - lo + 1)
  }

  /** randint(lo, hi): inclusive at both ends; an empty range is an error. */
  function RandInt(lo: int, hi: int, draw: nat): (r: Result<int>)
    ensures r.Failure? <==> hi < lo
    ensures r.Failure? ==> r.error == EmptyRange
    ensures r.Success? ==> lo <= r.value <= hi
  {
    if hi < lo then Failure(EmptyRange) else Success(Uniform(lo, hi, draw))
  }

  /** Every value in the range is produced by some draw. */
  lemma RandIntCoversRange(lo: int, hi: int, v: int)
    requires lo <= v <= hi
    ensures RandInt(lo, hi, v - lo) == Success(v)
  {
  }
}
