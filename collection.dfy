/** Records of the list pages and the mutations the pages apply to a list of
    them by the record's `id` attribute. A record is a map from attribute name
    to its (string) value; a missing attribute is an absent key, as
    `item.id` is `undefined` for a record without one. */
module Collection {
  import opened Wrappers
  import opened Seqs

  type Entity = map<string, string>

  /** The key attribute every list page compares on. */
  const IdKey := "id"

  /** `e[key]`: the attribute's value, or `None` for `undefined`. */
  function Get(e: Entity, key: string): Option<string> {
    if key in e then Some(e[key]) else None
  }

  /** `e.id`. */
  function KeyOf(e: Entity): Option<string> {
    Get(e, IdKey)
  }

  /** The ids of a list, position by position. */
  function Keys(data: seq<Entity>): seq<Option<string>> {
    MapSeq(data, KeyOf)
  }

  /** `data.filter(item => item.id !== id)`: every record whose id is not
      `id`, in order. A record without an id is kept unless `id` is itself
      undefined. */
  function RemoveKey(data: seq<Entity>, id: Option<string>): (r: seq<Entity>)
    ensures forall e :: e in r <==> e in data && KeyOf(e) != id
    ensures IsSubsequence(r, data)
    ensures forall e :: multiset(r)[e] == if KeyOf(e) != id then multiset(data)[e] else 0
  {
    FilterIsSubsequence(data, e => KeyOf(e) != id);
    FilterCounts(data, e => KeyOf(e) != id);
    Filter(data, e => KeyOf(e) != id)
  }

  /** `data.map(item => item.id === updated.id ? updated : item)`: the record
      with the same id as `updated` is replaced wholesale, every other one is
      kept, and the length and order do not change. */
  function ReplaceByKey(data: seq<Entity>, updated: Entity): (r: seq<Entity>)
    ensures |r| == |data|
    ensures forall i :: 0 <= i < |data| && KeyOf(data[i]) == KeyOf(updated) ==> r[i] == updated
    ensures forall i :: 0 <= i < |data| && KeyOf(data[i]) != KeyOf(updated) ==> r[i] == data[i]
  {
    MapSeq(data, e => if KeyOf(e) == KeyOf(updated) then updated else e)
  }

  /** `data.map(item => item.id === key ? {...item, ...draft} : item)`: the
      record whose id is `key` gets every attribute of `draft` laid over its
      own; every other record is kept. */
  function MergeByKey(data: seq<Entity>, key: Option<string>, draft: Entity): (r: seq<Entity>)
    ensures |r| == |data|
    ensures forall i :: 0 <= i < |data| && KeyOf(data[i]) != key ==> r[i] == data[i]
    ensures forall i, a :: 0 <= i < |data| && KeyOf(data[i]) == key ==>
      && (a in r[i] <==> a in data[i] || a in draft)
      && (a in draft ==> r[i][a] == draft[a])
      && (a in data[i] && a !in draft ==> r[i][a] == data[i][a])
  {
    MapSeq(data, e => if KeyOf(e) == key then e + draft else e)
  }

  /** `[...data, created]`. */
  function Append(data: seq<Entity>, created: Entity): (r: seq<Entity>)
    ensures |r| == |data| + 1 && r[..|data|] == data && r[|data|] == created
  {
    data + [created]
  }

  /** No two records of the list share an id. */
  predicate DistinctKeys(data: seq<Entity>) {
    forall i, j :: 0 <= i < j < |data| ==> KeyOf(data[i]) != KeyOf(data[j])
  }

  /** Replacing a record by one with the same id keeps every id where it was. */
  lemma ReplaceKeepsKeys(data: seq<Entity>, updated: Entity)
    ensures Keys(ReplaceByKey(data, updated)) == Keys(data)
  {
  }

  /** A merge keeps every id where it was as long as the draft does not
      carry a different id. */
  lemma MergeKeepsKeys(data: seq<Entity>, key: Option<string>, draft: Entity)
    requires IdKey in draft ==> key == Some(draft[IdKey])
    ensures Keys(MergeByKey(data, key, draft)) == Keys(data)
  {
    var r := MergeByKey(data, key, draft);
    forall i | 0 <= i < |data| ensures KeyOf(r[i]) == KeyOf(data[i]) {
      if KeyOf(data[i]) == key {
        assert IdKey in r[i] <==> IdKey in data[i] || IdKey in draft;
      }
    }
  }

  /** Replacing keeps the ids distinct. */
  lemma ReplaceKeepsDistinct(data: seq<Entity>, updated: Entity)
    requires DistinctKeys(data)
    ensures DistinctKeys(ReplaceByKey(data, updated))
  {
    ReplaceKeepsKeys(data, updated);
    var r := ReplaceByKey(data, updated);
    forall i, j | 0 <= i < j < |r| ensures KeyOf(r[i]) != KeyOf(r[j]) {
      assert Keys(r)[i] == Keys(data)[i] && Keys(r)[j] == Keys(data)[j];
    }
  }

  /** Removing records keeps the ids distinct. */
  lemma {:induction false} RemoveKeepsDistinct(data: seq<Entity>, id: Option<string>)
    requires DistinctKeys(data)
    ensures DistinctKeys(RemoveKey(data, id))
  {
    SubsequenceKeepsDistinct(RemoveKey(data, id), data);
  }

  lemma {:induction false} SubsequenceKeepsDistinct(a: seq<Entity>, b: seq<Entity>)
    requires IsSubsequence(a, b) && DistinctKeys(b)
    ensures DistinctKeys(a)
    decreases |b|
  {
    if |a| > 0 {
      if a[0] == b[0] && IsSubsequence(a[1..], b[1..]) {
        SubsequenceKeepsDistinct(a[1..], b[1..]);
        forall j | 0 < j < |a| ensures KeyOf(a[0]) != KeyOf(a[j]) {
          SubsequenceElements(a[1..], b[1..], a[j]);
          var k :| 0 <= k < |b[1..]| && b[1..][k] == a[j];
          assert b[k + 1] == a[j];
        }
      } else {
        SubsequenceKeepsDistinct(a, b[1..]);
      }
    }
  }

  /** Appending keeps the ids distinct exactly when the new id is new. */
  lemma AppendKeepsDistinct(data: seq<Entity>, created: Entity)
    requires DistinctKeys(data)
    ensures DistinctKeys(Append(data, created)) <==> KeyOf(created) !in Keys(data)
  {
    var r := Append(data, created);
    if KeyOf(created) in Keys(data) {
      var i :| 0 <= i < |data| && Keys(data)[i] == KeyOf(created);
      assert KeyOf(r[i]) == KeyOf(r[|data|]);
    } else {
      forall i | 0 <= i < |data| ensures KeyOf(r[i]) != KeyOf(r[|data|]) {
        assert Keys(data)[i] == KeyOf(data[i]);
      }
    }
  }

  /** Deleting an id after an update of that id is deleting it directly: the
      update leaves no record behind under the deleted id. */
  lemma {:induction false} RemoveAfterReplace(data: seq<Entity>, updated: Entity)
    ensures RemoveKey(ReplaceByKey(data, updated), KeyOf(updated)) == RemoveKey(data, KeyOf(updated))
  {
    if |data| > 0 {
      var k := KeyOf(updated);
      var r := ReplaceByKey(data, updated);
      assert r[1..] == ReplaceByKey(data[1..], updated);
      RemoveAfterReplace(data[1..], updated);
      assert KeyOf(r[0]) == k <==> KeyOf(data[0]) == k;
      if KeyOf(data[0]) != k {
        assert r[0] == data[0];
      }
    }
  }

  /** Replacing the same id in a list and in a list drawn from it keeps
      the one drawn from the other. */
  lemma ReplaceKeepsSubsequence(a: seq<Entity>, b: seq<Entity>, updated: Entity)
    requires IsSubsequence(a, b)
    ensures IsSubsequence(ReplaceByKey(a, updated), ReplaceByKey(b, updated))
  {
    MapPreservesSubsequence(a, b, e => if KeyOf(e) == KeyOf(updated) then updated else e);
  }

  /** Replacing by the same record twice is replacing once. */
  lemma ReplaceIdempotent(data: seq<Entity>, updated: Entity)
    ensures ReplaceByKey(ReplaceByKey(data, updated), updated) == ReplaceByKey(data, updated)
  {
  }

  /** With distinct ids, deleting the id of the record at position `i` (the
      argument the row's delete button passes) removes that record and
      nothing else. */
  lemma RemoveRowKey(data: seq<Entity>, i: nat)
    requires i < |data| && DistinctKeys(data)
    ensures RemoveKey(data, KeyOf(data[i])) == data[..i] + data[i + 1..]
  {
    forall j | 0 <= j < |data| && j != i ensures KeyOf(data[j]) != KeyOf(data[i]) {
      if j < i {
        assert KeyOf(data[j]) != KeyOf(data[i]);
      } else {
        assert KeyOf(data[i]) != KeyOf(data[j]);
      }
    }
    FilterDropsOnly(data, e => KeyOf(e) != KeyOf(data[i]), i);
  }

  /** Deleting an id no record has changes nothing. */
  lemma {:induction false} RemoveAbsentKey(data: seq<Entity>, id: Option<string>)
    requires forall e :: e in data ==> KeyOf(e) != id
    ensures RemoveKey(data, id) == data
  {
    FilterKeepsAll(data, e => KeyOf(e) != id);
  }

  /** The two update styles agree when the draft carries every attribute
      of the record it updates: laying such a draft over the record with
      its id is replacing that record by the draft. */
  lemma MergeOfCompleteDraftIsReplace(data: seq<Entity>, draft: Entity)
    requires forall e :: e in data && KeyOf(e) == KeyOf(draft) ==> e.Keys <= draft.Keys
    ensures MergeByKey(data, KeyOf(draft), draft) == ReplaceByKey(data, draft)
  {
    var m, r := MergeByKey(data, KeyOf(draft), draft), ReplaceByKey(data, draft);
    forall i | 0 <= i < |data| ensures m[i] == r[i] {
      if KeyOf(data[i]) == KeyOf(draft) {
        assert data[i] in data;
        assert m[i] == data[i] + draft;
      }
    }
  }
}
