/**
 * The circle buffer of horizontal samples used by the step detector.
 * Offset 0 is always the newest sample; each push moves the write head one
 * slot back and overwrites that slot, so the oldest sample falls out.
 */
module SampleBuffer {
  import opened Geometry
  import opened Wrappers

  /** The only failure of the buffer: an offset at or past its length. */
  datatype BufferError = IndexOutOfBounds

  /** The window after a push of p: p at offset 0, every other sample one offset older. */
  function Shifted(window: seq<Vec2>, p: Vec2): (r: seq<Vec2>)
    requires 0 < |window|
    ensures |r| == |window|
    ensures r[0] == p
    ensures r[1..] == window[..|window| - 1]
  {
    [p] + window[..|window| - 1]
  }

  /** The window after pushing every sample of ps in turn. */
  function PushAll(window: seq<Vec2>, ps: seq<Vec2>): (r: seq<Vec2>)
    requires 0 < |window|
    ensures |r| == |window|
    decreases |ps|
  {
    if ps == [] then window else Shifted(PushAll(window, ps[..|ps| - 1]), ps[|ps| - 1])
  }

  /**
   * After a run of pushes, offset i holds the i-th newest pushed sample while
   * there is one, and otherwise the sample that was at offset i - |ps| before.
   */
  lemma {:induction false} PushAllWindow(window: seq<Vec2>, ps: seq<Vec2>, i: nat)
    requires 0 < |window| && i < |window|
    ensures i < |ps| ==> PushAll(window, ps)[i] == ps[|ps| - 1 - i]
    ensures |ps| <= i ==> PushAll(window, ps)[i] == window[i - |ps|]
    decreases |ps|
  {
    if ps != [] {
      var front := ps[..|ps| - 1];
      if i == 0 {
      } else {
        PushAllWindow(window, front, i - 1);
        assert PushAll(window, ps)[i] == PushAll(window, front)[i - 1];
      }
    }
  }

  /**
   * The slot that holds offset i when offset 0 is at slot head: the source's
   * (head + i) % n, written without the remainder since both are below n.
   */
  function Slot(head: nat, i: nat, n: nat): (s: nat)
    requires head < n && i < n
    ensures s < n
  {
    if head + i < n then head + i else head + i - n
  }

  lemma SlotIsMod(head: nat, i: nat, n: nat)
    requires head < n && i < n
    ensures Slot(head, i, n) == (head + i) % n
  {
    if head + i >= n {
      assert head + i == 1 * n + (head + i - n);
    }
  }

  /** Moving the head back one slot, as the source's (head + n - 1) % n does. */
  lemma BackIsMod(head: nat, n: nat)
    requires head < n
    ensures (head + n - 1) % n == if head == 0 then n - 1 else head - 1
  {
    if head > 0 {
      assert head + n - 1 == 1 * n + (head - 1);
    }
  }

  class CircleBuffer {
    /** The slots; their number never changes. */
    const slots: array<Vec2>
    /** The slot that holds offset 0. */
    var head: nat
    /** The samples from the newest (offset 0) to the oldest. */
    ghost var Contents: seq<Vec2>

    ghost predicate Valid()
      reads this, slots
    {
      && |Contents| == slots.Length
      && (if slots.Length == 0 then head == 0 else head < slots.Length)
      && forall i :: 0 <= i < slots.Length ==> Contents[i] == slots[Slot(head, i, slots.Length)]
    }

    /** A buffer of numSamples zero samples. */
    constructor (numSamples: nat)
      ensures Valid() && fresh(slots)
      ensures Contents == seq(numSamples, _ => Zero)
    {
      slots := new Vec2[numSamples](_ => Zero);
      head := 0;
      Contents := seq(numSamples, _ => Zero);
    }

    /** A buffer whose slots are filled by an initializer; values lists what it returned, in order. */
    constructor FromValues(values: seq<Vec2>)
      ensures Valid() && fresh(slots)
      ensures Contents == values
    {
      slots := new Vec2[|values|](i requires 0 <= i < |values| => values[i]);
      head := 0;
      Contents := values;
    }

    /** The length getter: the fixed number of slots. */
    function Length(): (n: nat)
      requires Valid()
      reads this, slots
      ensures n == |Contents|
    {
      slots.Length
    }

    /** The sample at an offset, or the error the source throws for an offset past the end. */
    method At(i: nat) returns (r: Result<Vec2, BufferError>)
      requires Valid()
      ensures i < |Contents| ==> r == Ok(Contents[i])
      ensures |Contents| <= i ==> r == Err(IndexOutOfBounds)
    {
      if i >= slots.Length {
        return Err(IndexOutOfBounds);
      }
      SlotIsMod(head, i, slots.Length);
      r := Ok(slots[(head + i) % slots.Length]);
    }

    /** Overwrites the sample at an offset in place, as at(i).copyFromFloats does. */
    method Put(i: nat, p: Vec2) returns (r: Result<(), BufferError>)
      requires Valid()
      modifies this, slots
      ensures Valid() && head == old(head)
      ensures i < |Contents| ==> r == Ok(()) && Contents == old(Contents)[i := p]
      ensures |Contents| <= i ==> r == Err(IndexOutOfBounds) && Contents == old(Contents)
    {
      var n := slots.Length;
      if i >= n {
        return Err(IndexOutOfBounds);
      }
      SlotIsMod(head, i, n);
      slots[(head + i) % n] := p;
      Contents := Contents[i := p];
      r := Ok(());
    }

    /**
     * Moves the head back one slot and writes p there. On an empty buffer the
     * source throws out of at(0); the model reports that as an error and changes nothing.
     */
    method Push(p: Vec2) returns (r: Result<(), BufferError>)
      requires Valid()
      modifies this, slots
      ensures Valid()
      ensures 0 < |old(Contents)| ==> r == Ok(()) && Contents == Shifted(old(Contents), p)
      ensures old(Contents) == [] ==> r == Err(IndexOutOfBounds) && Contents == old(Contents)
    {
      var n := slots.Length;
      if n == 0 {
        return Err(IndexOutOfBounds);
      }
      BackIsMod(head, n);
      head := (head + n - 1) % n;
      Contents := [Contents[n - 1]] + Contents[..n - 1];
      r := Put(0, p);
    }
  }
}
