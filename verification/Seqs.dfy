/** Facts about sequences of anything. */
module Seqs {

  ghost predicate Distinct<T>(s: seq<T>) { forall i, j | 0 <= i < j < |s| :: s[i] != s[j] }

  lemma SameElements<T>(a: seq<T>, b: seq<T>)
    requires |a| == |b| && forall i | 0 <= i < |a| :: a[i] == b[i]
    ensures a == b
  {
  }

  lemma InFrontOrLast<T>(s: seq<T>, x: T)
    requires s != []
    ensures x in s <==> x in s[..|s| - 1] || x == s[|s| - 1]
  {
    assert s == s[..|s| - 1] + [s[|s| - 1]];
  }

  lemma TakeOneMore<T>(a: seq<T>, b: seq<T>, i: nat)
    requires i < |b|
    ensures a + b[..i + 1] == a + b[..i] + [b[i]]
  {
  }

  // ---------------------------------------------------------------- blocks one after the other

  /** The first n blocks one after the other. */
  function Blocks<T>(blocks: seq<seq<T>>, n: nat): seq<T>
    requires n <= |blocks|
  {
    if n == 0 then [] else Blocks(blocks, n - 1) + blocks[n - 1]
  }

  /** Where block n starts. */
  function StartOf<T>(blocks: seq<seq<T>>, n: nat): nat
    requires n <= |blocks|
  {
    if n == 0 then 0 else StartOf(blocks, n - 1) + |blocks[n - 1]|
  }

  /** The words are those of the data from l up to h. */
  ghost predicate Occupies<T>(data: seq<T>, l: int, h: int, words: seq<T>) {
    0 <= l <= h <= |data| && data[l..h] == words
  }

  lemma OccupiesFront<T>(front: seq<T>, back: seq<T>, l: int, h: int, words: seq<T>)
    requires Occupies(front, l, h, words)
    ensures Occupies(front + back, l, h, words)
  {
    assert (front + back)[l..h] == front[l..h];
  }

  lemma OccupiesBack<T>(front: seq<T>, back: seq<T>)
    ensures Occupies(front + back, |front|, |front| + |back|, back)
  {
    assert (front + back)[|front|..|front| + |back|] == back;
  }

  lemma {:induction false} BlocksLength<T>(blocks: seq<seq<T>>, n: nat)
    requires n <= |blocks|
    ensures |Blocks(blocks, n)| == StartOf(blocks, n)
  {
    if n > 0 { BlocksLength(blocks, n - 1); }
  }

  /** Each block is found where it starts. */
  lemma {:induction false} BlockPlaces<T>(blocks: seq<seq<T>>, n: nat, i: nat)
    requires i < n <= |blocks|
    ensures Occupies(Blocks(blocks, n), StartOf(blocks, i), StartOf(blocks, i) + |blocks[i]|, blocks[i])
  {
    BlocksLength(blocks, n - 1);
    if i < n - 1 {
      BlockPlaces(blocks, n - 1, i);
      OccupiesFront(
        Blocks(blocks, n - 1), blocks[n - 1], StartOf(blocks, i), StartOf(blocks, i) + |blocks[i]|, blocks[i]);
    } else {
      OccupiesBack(Blocks(blocks, n - 1), blocks[n - 1]);
    }
  }
}
