/** `onDragEnd` of the sprint board (src/pages/Board.jsx): the columns are a
    map from column id to the ordered list of its cards, and a drop moves
    one card, within its column or into another, with `Array.prototype.splice`. */
module Board {
  import opened Base

  /** `{ droppableId, index }`: a column and a position in it. */
  datatype Location<K> = Location(droppableId: K, index: nat)

  /** The drag-and-drop result: where the card came from and, unless it was
      dropped outside every column, where it went. */
  datatype DropResult<K> = DropResult(source: Location<K>, destination: Option<Location<K>>)

  /** `list.splice(i, 1)` on a copy: the list without its `i`-th card. */
  function RemoveAt<T>(s: seq<T>, i: nat): (r: seq<T>)
    requires i < |s|
    ensures |r| == |s| - 1
    ensures forall j | 0 <= j < i :: r[j] == s[j]
    ensures forall j | i <= j < |r| :: r[j] == s[j + 1]
  {
    s[..i] + s[i + 1..]
  }

  /** Where `splice(i, 0, x)` puts `x` in `s`: a start past the end means
      the end. */
  function Landing<T>(s: seq<T>, i: nat): nat {
    if i <= |s| then i else |s|
  }

  /** `list.splice(i, 0, x)` on a copy. */
  function InsertAt<T>(s: seq<T>, i: nat, x: T): (r: seq<T>)
    ensures |r| == |s| + 1
    ensures r[Landing(s, i)] == x
    ensures forall j | 0 <= j < Landing(s, i) :: r[j] == s[j]
    ensures forall j | Landing(s, i) < j < |r| :: r[j] == s[j - 1]
  {
    var p := Landing(s, i);
    s[..p] + [x] + s[p..]
  }

  /** Removing what was inserted gives the list back. */
  lemma RemoveInsert<T>(s: seq<T>, i: nat, x: T)
    ensures RemoveAt(InsertAt(s, i, x), Landing(s, i)) == s
  {
    var r := RemoveAt(InsertAt(s, i, x), Landing(s, i));
    assert forall j | 0 <= j < |s| :: r[j] == s[j];
  }

  /** Putting a removed card back where it was gives the list back. */
  lemma InsertRemove<T>(s: seq<T>, i: nat)
    requires i < |s|
    ensures InsertAt(RemoveAt(s, i), i, s[i]) == s
  {
    var r := InsertAt(RemoveAt(s, i), i, s[i]);
    assert forall j | 0 <= j < |s| :: r[j] == s[j];
  }

  lemma RemoveMultiset<T>(s: seq<T>, i: nat)
    requires i < |s|
    ensures multiset(RemoveAt(s, i)) + multiset{s[i]} == multiset(s)
  {
    assert s == s[..i] + [s[i]] + s[i + 1..];
  }

  lemma InsertMultiset<T>(s: seq<T>, i: nat, x: T)
    ensures multiset(InsertAt(s, i, x)) == multiset(s) + multiset{x}
  {
    var p := Landing(s, i);
    assert s == s[..p] + s[p..];
  }

  /** What the library guarantees of a drop: both columns exist and the
      dragged card is in its column. */
  predicate Droppable<K(==), T>(columns: map<K, seq<T>>, result: DropResult<K>) {
    && result.source.droppableId in columns
    && result.source.index < |columns[result.source.droppableId]|
    && (result.destination.Some? ==> result.destination.value.droppableId in columns)
  }

  /** `onDragEnd(result)`: the columns after the drop. */
  function OnDragEnd<K(==), T>(columns: map<K, seq<T>>, result: DropResult<K>): (r: map<K, seq<T>>)
    requires Droppable(columns, result)
    ensures r.Keys == columns.Keys
    ensures result.destination.None? ==> r == columns
    ensures forall k | k in columns && k != result.source.droppableId
                       && (result.destination.None? || k != result.destination.value.droppableId) ::
      r[k] == columns[k]
  {
    if result.destination.None? then columns
    else
      var src, dst := result.source, result.destination.value;
      var moved := columns[src.droppableId][src.index];
      if src.droppableId == dst.droppableId then
        var list := RemoveAt(columns[src.droppableId], src.index);
        columns[src.droppableId := InsertAt(list, dst.index, moved)]
      else
        columns[src.droppableId := RemoveAt(columns[src.droppableId], src.index)]
               [dst.droppableId := InsertAt(columns[dst.droppableId], dst.index, moved)]
  }

  /** A move within one column: the column keeps its length and its cards,
      the dragged card lands at the drop index (the last place when the index
      is past the end), and the other cards keep their relative order. */
  lemma SameColumnMove<K, T>(columns: map<K, seq<T>>, result: DropResult<K>)
    requires Droppable(columns, result)
    requires result.destination.Some? && result.destination.value.droppableId == result.source.droppableId
    ensures var id, col := result.source.droppableId, columns[result.source.droppableId];
      var after := OnDragEnd(columns, result)[id];
      var p := Landing(RemoveAt(col, result.source.index), result.destination.value.index);
      && |after| == |col|
      && multiset(after) == multiset(col)
      && after[p] == col[result.source.index]
      && RemoveAt(after, p) == RemoveAt(col, result.source.index)
  {
    var id, col := result.source.droppableId, columns[result.source.droppableId];
    var list := RemoveAt(col, result.source.index);
    RemoveMultiset(col, result.source.index);
    InsertMultiset(list, result.destination.value.index, col[result.source.index]);
    RemoveInsert(list, result.destination.value.index, col[result.source.index]);
  }

  /** A move into another column: the source column loses exactly the
      dragged card, the destination column gains it at the drop index, and
      both keep the relative order of their other cards. */
  lemma CrossColumnMove<K, T>(columns: map<K, seq<T>>, result: DropResult<K>)
    requires Droppable(columns, result)
    requires result.destination.Some? && result.destination.value.droppableId != result.source.droppableId
    ensures var src, dst := result.source, result.destination.value;
      var r := OnDragEnd(columns, result);
      var p := Landing(columns[dst.droppableId], dst.index);
      && |r[src.droppableId]| == |columns[src.droppableId]| - 1
      && |r[dst.droppableId]| == |columns[dst.droppableId]| + 1
      && r[src.droppableId] == RemoveAt(columns[src.droppableId], src.index)
      && r[dst.droppableId][p] == columns[src.droppableId][src.index]
      && RemoveAt(r[dst.droppableId], p) == columns[dst.droppableId]
  {
    var src, dst := result.source, result.destination.value;
    RemoveInsert(columns[dst.droppableId], dst.index, columns[src.droppableId][src.index]);
  }

  /** The ids in `keys` are pairwise distinct. */
  predicate Distinct<K(==)>(keys: seq<K>) {
    forall i, j | 0 <= i < j < |keys| :: keys[i] != keys[j]
  }

  /** The number of cards in the columns named by `keys`. */
  function Count<K(==), T>(columns: map<K, seq<T>>, keys: seq<K>): nat
    requires forall i | 0 <= i < |keys| :: keys[i] in columns
  {
    if keys == [] then 0 else |columns[keys[0]]| + Count(columns, keys[1..])
  }

  /** Replacing one column changes the count by the change in its length,
      when the column is listed once, and not at all when it is not listed. */
  lemma {:induction false} CountUpdate<K, T>(columns: map<K, seq<T>>, keys: seq<K>, k: K, v: seq<T>)
    requires k in columns && Distinct(keys)
    requires forall i | 0 <= i < |keys| :: keys[i] in columns
    ensures k in keys ==> Count(columns[k := v], keys) + |columns[k]| == Count(columns, keys) + |v|
    ensures k !in keys ==> Count(columns[k := v], keys) == Count(columns, keys)
  {
    if keys != [] {
      assert Distinct(keys[1..]);
      CountUpdate(columns, keys[1..], k, v);
      assert k in keys[1..] <==> k in keys && k != keys[0];
    }
  }

  /** A drop never creates or loses a card: counted over all the columns,
      the total is unchanged. */
  lemma TotalPreserved<K, T>(columns: map<K, seq<T>>, result: DropResult<K>, keys: seq<K>)
    requires Droppable(columns, result)
    requires Distinct(keys) && forall k :: k in columns <==> k in keys
    ensures Count(OnDragEnd(columns, result), keys) == Count(columns, keys)
  {
    if result.destination.Some? {
      var src, dst := result.source, result.destination.value;
      var col := columns[src.droppableId];
      var moved := col[src.index];
      var list := RemoveAt(col, src.index);
      if src.droppableId == dst.droppableId {
        CountUpdate(columns, keys, src.droppableId, InsertAt(list, dst.index, moved));
      } else {
        var mid := columns[src.droppableId := list];
        CountUpdate(columns, keys, src.droppableId, list);
        CountUpdate(mid, keys, dst.droppableId, InsertAt(columns[dst.droppableId], dst.index, moved));
      }
    }
  }
}
