/**
  Reordering the rows of a preferences list: the Move Up / Move Down / Remove
  actions of an entry's edit menu, and dropping a dragged row onto another row.
  Both work on the list box the rows belong to, by removing the row and
  inserting it again at a position.
*/
module EntryRows {
  import opened Wrappers

  /** `ModifyEntryType`: MOVE_UP = 0, MOVE_DOWN = 1, REMOVE = 2. */
  datatype ModifyEntryType = MoveUp | MoveDown | RemoveEntry

  ghost predicate Distinct<T>(s: seq<T>) {
    forall i, j :: 0 <= i < j < |s| ==> s[i] != s[j]
  }

  /** The position of `x` in `s` (`get_index`). */
  function IndexOf<T(==)>(s: seq<T>, x: T): (i: nat)
    requires x in s
    ensures i < |s| && s[i] == x && x !in s[..i]
  {
    if s[0] == x then 0
    else
      assert s == [s[0]] + s[1..];
      var j := IndexOf(s[1..], x);
      assert s[..j + 1] == [s[0]] + s[1..][..j];
      j + 1
  }

  /** `s` without the item at `i`; the others keep their order. */
  function RemoveAt<T>(s: seq<T>, i: nat): (r: seq<T>)
    requires i < |s|
    ensures |r| == |s| - 1
    ensures forall k :: 0 <= k < i ==> r[k] == s[k]
    ensures forall k :: i <= k < |r| ==> r[k] == s[k + 1]
  {
    s[..i] + s[i + 1..]
  }

  /**
    `Gtk.ListBox.insert`: `x` goes in before the item at `position`; a position
    that is negative or past the end appends.
  */
  function InsertAt<T>(s: seq<T>, x: T, position: int): (r: seq<T>)
    ensures |r| == |s| + 1
    ensures var p := if 0 <= position <= |s| then position else |s|;
            && r[p] == x
            && (forall k :: 0 <= k < p ==> r[k] == s[k])
            && (forall k :: p < k < |r| ==> r[k] == s[k - 1])
  {
    if 0 <= position <= |s| then s[..position] + [x] + s[position..] else s + [x]
  }

  /** The row at `i` taken out and put back in at `j`, as both reorderings do it. */
  function Relocate<T>(s: seq<T>, i: nat, j: nat): seq<T>
    requires i < |s| && j < |s|
  {
    InsertAt(RemoveAt(s, i), s[i], j)
  }

  /** The rows `i` and `i + 1` exchanged. */
  function SwapWithNext<T>(s: seq<T>, i: nat): (r: seq<T>)
    requires i + 1 < |s|
  {
    s[i := s[i + 1]][i + 1 := s[i]]
  }

  /**
    After relocating, the row sits at `j`, and taking it out again leaves the
    other rows exactly as they were, in the same order; the list keeps its
    length and its rows.
  */
  lemma RelocatePlaces<T>(s: seq<T>, i: nat, j: nat)
    requires i < |s| && j < |s|
    ensures |Relocate(s, i, j)| == |s|
    ensures Relocate(s, i, j)[j] == s[i]
    ensures RemoveAt(Relocate(s, i, j), j) == RemoveAt(s, i)
    ensures multiset(Relocate(s, i, j)) == multiset(s)
  {
    var r := Relocate(s, i, j);
    var t := RemoveAt(s, i);
    assert RemoveAt(r, j) == t;
    calc {
      multiset(r);
      { assert r == t[..j] + [s[i]] + t[j..]; }
      multiset(t[..j]) + multiset{s[i]} + multiset(t[j..]);
      { assert t == t[..j] + t[j..]; }
      multiset(t) + multiset{s[i]};
      { assert s == s[..i] + [s[i]] + s[i + 1..]; }
      multiset(s);
    }
  }

  /** Those two facts fix the result: any list with them is the relocated one. */
  lemma RelocateUnique<T>(s: seq<T>, i: nat, j: nat, r: seq<T>)
    requires i < |s| && j < |s| && |r| == |s|
    requires r[j] == s[i] && RemoveAt(r, j) == RemoveAt(s, i)
    ensures r == Relocate(s, i, j)
  {
    RelocatePlaces(s, i, j);
    var q := Relocate(s, i, j);
    forall k | 0 <= k < |r| ensures r[k] == q[k] {
      if k < j {
        assert r[k] == RemoveAt(r, j)[k] == RemoveAt(q, j)[k] == q[k];
      } else if k > j {
        assert r[k] == RemoveAt(r, j)[k - 1] == RemoveAt(q, j)[k - 1] == q[k];
      }
    }
  }

  /** Relocating onto the next position exchanges the two rows. */
  lemma RelocateDownIsSwap<T>(s: seq<T>, i: nat)
    requires i + 1 < |s|
    ensures Relocate(s, i, i + 1) == SwapWithNext(s, i)
  {
    var r := SwapWithNext(s, i);
    assert RemoveAt(r, i + 1) == RemoveAt(s, i);
    RelocateUnique(s, i, i + 1, r);
  }

  /** Relocating onto the previous position exchanges the two rows. */
  lemma RelocateUpIsSwap<T>(s: seq<T>, i: nat)
    requires 0 < i < |s|
    ensures Relocate(s, i, i - 1) == SwapWithNext(s, i - 1)
  {
    var r := SwapWithNext(s, i - 1);
    assert RemoveAt(r, i - 1) == RemoveAt(s, i);
    RelocateUnique(s, i, i - 1, r);
  }

  // ---------------------------------------------------------------------------
  // The list box and the two handlers

  /** The rows of a `Gtk.ListBox`, each row a distinct widget. */
  class ListBox<T(==)> {
    var rows: seq<T>

    ghost predicate Valid()
      reads this
    {
      Distinct(rows)
    }

    constructor (rows: seq<T>)
      requires Distinct(rows)
      ensures Valid() && this.rows == rows
    {
      this.rows := rows;
    }

    /** `remove(row)`. */
    method Remove(row: T)
      requires Valid() && row in rows
      modifies this
      ensures rows == RemoveAt(old(rows), IndexOf(old(rows), row))
      ensures Valid() && row !in rows
    {
      var i := IndexOf(rows, row);
      ghost var s := rows;
      rows := RemoveAt(rows, i);
      forall a, b | 0 <= a < b < |rows| ensures rows[a] != rows[b] {
        var a', b' := if a < i then a else a + 1, if b < i then b else b + 1;
        assert rows[a] == s[a'] && rows[b] == s[b'];
      }
    }

    /** `insert(row, position)`. */
    method Insert(row: T, position: int)
      requires Valid() && row !in rows
      modifies this
      ensures rows == InsertAt(old(rows), row, position)
      ensures Valid()
    {
      ghost var s := rows;
      rows := InsertAt(rows, row, position);
      var p := if 0 <= position <= |s| then position else |s|;
      forall a, b | 0 <= a < b < |rows| ensures rows[a] != rows[b] {
        if a == p {
          assert rows[b] == s[b - 1];
        } else if b == p {
          assert rows[a] == s[a];
        } else {
          var a', b' := if a < p then a else a - 1, if b < p then b else b - 1;
          assert rows[a] == s[a'] && rows[b] == s[b'];
        }
      }
    }
  }

  /** The edit menu of one entry row. */
  class EditEntriesBox<T(==)> {
    const row: T

    constructor (row: T)
      ensures this.row == row
    {
      this.row := row;
    }

    /**
      `modifyEntry`: Move Down on the last row and Move Up on the first do
      nothing and emit nothing; otherwise the row trades places with its
      neighbour, or is removed, and `entry-modified(startIndex, newIndex)` is
      emitted, with `newIndex == -1` for a removal.
    */
    method ModifyEntry(parent: ListBox<T>, kind: ModifyEntryType) returns (emitted: Option<(int, int)>)
      requires parent.Valid() && row in parent.rows
      modifies parent
      ensures parent.Valid()
      ensures var s := old(parent.rows);
              var i := IndexOf(s, row);
              match kind
              case MoveDown =>
                if i >= |s| - 1 then emitted == None && parent.rows == s
                else emitted == Some((i, i + 1)) && parent.rows == SwapWithNext(s, i)
              case MoveUp =>
                if i <= 0 then emitted == None && parent.rows == s
                else emitted == Some((i, i - 1)) && parent.rows == SwapWithNext(s, i - 1)
              case RemoveEntry =>
                emitted == Some((i, -1)) && parent.rows == RemoveAt(s, i)
    {
      var startIndex := IndexOf(parent.rows, row);
      var count := |parent.rows|;
      ghost var s := parent.rows;
      var indexModification := 0;
      if kind == MoveDown {
        if startIndex >= count - 1 {
          return None;
        }
        indexModification := 1;
      } else if kind == MoveUp {
        if startIndex <= 0 {
          return None;
        }
        indexModification := -1;
      }
      if kind == RemoveEntry {
        indexModification := (startIndex + 1) * -1;
      }
      var newIndex := startIndex + indexModification;

      parent.Remove(row);
      if newIndex != -1 {
        parent.Insert(row, newIndex);
        if kind == MoveDown {
          RelocateDownIsSwap(s, startIndex);
        } else {
          RelocateUpIsSwap(s, startIndex);
        }
      }
      emitted := Some((startIndex, newIndex));
    }
  }

  /**
    The drop handler of a drag row: dropping the dragged row onto `target`
    (possibly itself). A drop onto its own position changes nothing; otherwise
    the dragged row is taken out and put back in at the target's original
    position, and `drag-drop-done` is emitted. The drop is always accepted.
  */
  method Drop<T(==)>(parent: ListBox<T>, dragRow: T, target: T) returns (accepted: bool, dropDone: bool)
    requires parent.Valid() && dragRow in parent.rows && target in parent.rows
    modifies parent
    ensures parent.Valid() && accepted
    ensures var s := old(parent.rows);
            var i, j := IndexOf(s, dragRow), IndexOf(s, target);
            && (i == j ==> !dropDone && parent.rows == s)
            && (i != j ==> dropDone && parent.rows == Relocate(s, i, j))
  {
    var dragRowStartIndex := IndexOf(parent.rows, dragRow);
    var dragRowNewIndex := IndexOf(parent.rows, target);
    if dragRowStartIndex == dragRowNewIndex {
      return true, false;
    }
    parent.Remove(dragRow);
    parent.Insert(dragRow, dragRowNewIndex);
    return true, true;
  }
}
