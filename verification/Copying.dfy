/** Copying a block into a buffer one element at a time. */
module Copying {

  /** The buffer after the first i elements of a block have been written from position `at` on. */
  function Copied<T>(buffer: seq<T>, at: nat, block: seq<T>, i: nat): (c: seq<T>)
    requires i <= |block| && at + |block| <= |buffer|
    ensures |c| == |buffer|
  {
    buffer[..at] + block[..i] + buffer[at + i..]
  }

  lemma CopiedEnds<T>(buffer: seq<T>, at: nat, block: seq<T>)
    requires at + |block| <= |buffer|
    ensures Copied(buffer, at, block, 0) == buffer
    ensures Copied(buffer, at, block, |block|) == buffer[..at] + block + buffer[at + |block|..]
  {
    assert block[..|block|] == block;
  }

  lemma CopyNext<T>(buffer: seq<T>, at: nat, block: seq<T>, i: nat)
    requires i < |block| && at + |block| <= |buffer|
    ensures Copied(buffer, at, block, i)[at + i := block[i]] == Copied(buffer, at, block, i + 1)
  {
  }
}
