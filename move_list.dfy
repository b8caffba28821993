/**
 * The bounded move container of the engine (class MoveList, common.h,
 * lines 135-175): a buffer of 128 moves and a count of the ones in use,
 * updated in place.
 */
module MoveLists {

  import opened Moves

  /** Number of slots the list allocates. */
  const Capacity: nat := 128

  /** The sequence with its entry at index i taken out; the entries after it move up by one. */
  function RemoveAt(s: seq<Move>, i: nat): (r: seq<Move>)
    requires i < |s|
    ensures |r| == |s| - 1
    ensures forall k | 0 <= k < |r| :: r[k] == (if k < i then s[k] else s[k + 1])
  {
    s[..i] + s[i + 1..]
  }

  /** Removing an entry loses exactly that entry: the old contents are the new ones plus it. */
  lemma RemoveAtMultiset(s: seq<Move>, i: nat)
    requires i < |s|
    ensures multiset(s) == multiset(RemoveAt(s, i)) + multiset{s[i]}
  {
    assert s == s[..i] + [s[i]] + s[i + 1..];
  }

  /** Removing what was just appended undoes the append. */
  lemma RemoveAtUndoesAppend(s: seq<Move>, m: Move)
    ensures RemoveAt(s + [m], |s|) == s
  {
  }

  /**
   * Survivors keep their relative order: two entries on the same side of the
   * removed one, or on opposite sides, appear in the result in the order
   * they had before.
   */
  lemma RemoveAtKeepsOrder(s: seq<Move>, i: nat, a: nat, b: nat)
    requires i < |s| && a < b < |s| && a != i && b != i
    ensures var r := RemoveAt(s, i);
      var a' := if a < i then a else a - 1;
      var b' := if b < i then b else b - 1;
      a' < b' < |r| && r[a'] == s[a] && r[b'] == s[b]
  {
  }

  class MoveList {
    var moves: array<Move>
    var length: nat

    /** The object invariant: 128 slots, of which the first length are in use. */
    ghost predicate Valid()
      reads this
    {
      moves.Length == Capacity && length <= Capacity
    }

    /** The moves in the list, in order. */
    ghost function Contents(): (s: seq<Move>)
      reads this, moves
      requires Valid()
      ensures |s| == length
    {
      moves[..length]
    }

    /** A fresh list: a newly allocated buffer and no moves. */
    constructor ()
      ensures Valid() && fresh(moves)
      ensures Contents() == []
    {
      moves := new Move[Capacity];
      length := 0;
    }

    method Size() returns (n: nat)
      requires Valid()
      ensures n == |Contents()|
      ensures n <= Capacity
    {
      n := length;
    }

    /** Appends m after the last move; the caller must leave a free slot. */
    method Add(m: Move)
      requires Valid() && length < Capacity
      modifies this`length, moves
      ensures Valid()
      ensures Contents() == old(Contents()) + [m]
      ensures moves[..] == old(moves[..])[old(length) := m]
    {
      moves[length] := m;
      length := length + 1;
    }

    method Get(i: int) returns (m: Move)
      requires Valid() && 0 <= i < length
      ensures m == Contents()[i]
    {
      m := moves[i];
    }

    method Last() returns (m: Move)
      requires Valid() && 0 < length
      ensures m == Contents()[|Contents()| - 1]
    {
      m := moves[length - 1];
    }

    method Set(i: int, m: Move)
      requires Valid() && 0 <= i < length
      modifies moves
      ensures Valid()
      ensures Contents() == old(Contents())[i := m]
      ensures moves[..] == old(moves[..])[i := m]
    {
      moves[i] := m;
    }

    /**
     * Takes out the move at index i and returns it; the moves after it shift
     * one slot down, and the slot that was last in use keeps its old value.
     */
    method Remove(i: int) returns (deleted: Move)
      requires Valid() && 0 <= i < length
      modifies this`length, moves
      ensures Valid()
      ensures deleted == old(Contents())[i]
      ensures Contents() == RemoveAt(old(Contents()), i)
      ensures moves[..] == old(moves[..])[..i] + old(moves[..])[i + 1..old(length)]
                           + old(moves[..])[old(length) - 1..]
    {
      deleted := moves[i];
      var j := i;
      while j < length - 1
        invariant length == old(length)
        invariant i <= j <= length - 1
        invariant forall k | 0 <= k < i :: moves[k] == old(moves[k])
        invariant forall k | i <= k < j :: moves[k] == old(moves[k + 1])
        invariant forall k | j <= k < moves.Length :: moves[k] == old(moves[k])
      {
        moves[j] := moves[j + 1];
        j := j + 1;
      }
      length := length - 1;
    }

    /** Drops every move by replacing the buffer with a fresh one. */
    method Clear()
      requires Valid()
      modifies this
      ensures Valid() && fresh(moves)
      ensures Contents() == []
    {
      moves := new Move[Capacity];
      length := 0;
    }
  }

  /**
   * Three moves appended and the middle one removed: the removed move is
   * returned and the other two remain, in order.
   */
  method RemoveMiddleOfThree(m0: Move, m1: Move, m2: Move)
    returns (removed: Move, first: Move, second: Move, size: nat)
    ensures removed == m1 && first == m0 && second == m2 && size == 2
  {
    var list := new MoveList();
    list.Add(m0);
    list.Add(m1);
    list.Add(m2);
    removed := list.Remove(1);
    first := list.Get(0);
    second := list.Get(1);
    size := list.Size();
  }

  /** A cleared list behaves as a new one: appends after it start at index 0. */
  method ClearThenAdd(m0: Move, m1: Move, m: Move)
    returns (got: Move, last: Move, size: nat)
    ensures got == m && last == m && size == 1
  {
    var list := new MoveList();
    list.Add(m0);
    list.Add(m1);
    list.Clear();
    list.Add(m);
    got := list.Get(0);
    last := list.Last();
    size := list.Size();
  }
}
