/**
 * A table as the handlers see it: its rows in storage order, each with a
 * primary key that `idOf` reads.
 */
module Table {
  import opened Wrappers
  import opened Json

  /** The primary-key constraint. */
  ghost predicate UniqueIds<T>(rows: seq<T>, idOf: T -> int)
  {
    forall i, j :: 0 <= i < j < |rows| ==> idOf(rows[i]) != idOf(rows[j])
  }

  /** `Model.query.filter(Model.id == id).one_or_none()`, as a position. */
  function IndexOf<T>(rows: seq<T>, idOf: T -> int, id: int): (r: Option<nat>)
    ensures r.Some? ==> r.value < |rows| && idOf(rows[r.value]) == id
    ensures r.None? <==> forall k :: 0 <= k < |rows| ==> idOf(rows[k]) != id
  {
    if rows == [] then None
    else if idOf(rows[0]) == id then Some(0)
    else match IndexOf(rows[1..], idOf, id)
      case None => None
      case Some(k) => Some(k + 1)
  }

  function RemoveAt<T>(rows: seq<T>, i: nat): (r: seq<T>)
    requires i < |rows|
    ensures |r| == |rows| - 1
    ensures forall k :: 0 <= k < i ==> r[k] == rows[k]
    ensures forall k :: i <= k < |r| ==> r[k] == rows[k + 1]
  {
    rows[..i] + rows[i + 1..]
  }

  /**
   * Removing the row found for `id` removes exactly the rows with that key:
   * every other row stays, the key is gone, and keys stay unique.
   */
  lemma RemoveById<T>(rows: seq<T>, idOf: T -> int, id: int)
    requires UniqueIds(rows, idOf)
    requires IndexOf(rows, idOf, id).Some?
    ensures var r := RemoveAt(rows, IndexOf(rows, idOf, id).value);
            && UniqueIds(r, idOf)
            && IndexOf(r, idOf, id).None?
            && forall x :: x in r <==> x in rows && idOf(x) != id
  {
    var i := IndexOf(rows, idOf, id).value;
    var r := RemoveAt(rows, i);
    forall a, b | 0 <= a < b < |r| ensures idOf(r[a]) != idOf(r[b]) {
      var a', b' := if a < i then a else a + 1, if b < i then b else b + 1;
      assert r[a] == rows[a'] && r[b] == rows[b'];
    }
    forall k | 0 <= k < |r| ensures idOf(r[k]) != id {
      var k' := if k < i then k else k + 1;
      assert r[k] == rows[k'];
    }
    forall x ensures x in r <==> x in rows && idOf(x) != id {
      if x in rows && idOf(x) != id {
        var k :| 0 <= k < |rows| && rows[k] == x;
        assert k != i;
        if k < i { assert r[k] == x; } else { assert r[k - 1] == x; }
      }
      if x in r {
        var k :| 0 <= k < |r| && r[k] == x;
        var k' := if k < i then k else k + 1;
        assert rows[k'] == x;
      }
    }
  }

  /** Appending a row under a key not yet present keeps keys unique. */
  lemma AppendFresh<T>(rows: seq<T>, idOf: T -> int, x: T)
    requires IndexOf(rows, idOf, idOf(x)).None?
    ensures UniqueIds(rows, idOf) ==> UniqueIds(rows + [x], idOf)
  {
    if !UniqueIds(rows, idOf) { return; }
    var r := rows + [x];
    forall a, b | 0 <= a < b < |r| ensures idOf(r[a]) != idOf(r[b]) {
      if b < |rows| { assert r[a] == rows[a] && r[b] == rows[b]; }
      else { assert r[a] == rows[a]; }
    }
  }

  /** Replacing a row by one with the same key keeps keys unique. */
  lemma ReplaceKeepsKeys<T>(rows: seq<T>, idOf: T -> int, i: nat, x: T)
    requires UniqueIds(rows, idOf)
    requires i < |rows| && idOf(x) == idOf(rows[i])
    ensures UniqueIds(rows[i := x], idOf)
  {
  }

  /** `[row.format() for row in rows]`. */
  function Listing<T>(rows: seq<T>, format: T -> Json): (r: seq<Json>)
    ensures |r| == |rows|
    ensures forall k :: 0 <= k < |rows| ==> r[k] == format(rows[k])
  {
    if rows == [] then [] else [format(rows[0])] + Listing(rows[1..], format)
  }
}
