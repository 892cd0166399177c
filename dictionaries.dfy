/** Dictionaries with string keys compared ignoring case (Dictionary<string, object> built with
    StringComparer.OrdinalIgnoreCase, and AdditionalPropertiesDictionary). A dictionary is its
    entries in insertion order, which is the order it enumerates them in when nothing is removed. */
module Dictionaries {
  import opened Wrappers
  import opened Text

  /** The values kept in property bags: null, a string, an integer, a flag, a boxed enum member
      (by its name), or an SDK object. */
  datatype Value = Null | Str(s: string) | Int(i: int) | Bool(b: bool) | Enum(name: string) | Object(handle: nat)

  datatype Entry = Entry(key: string, value: Value)

  type Dict = seq<Entry>

  /** No two entries have keys that are equal ignoring case. */
  ghost predicate KeysDistinct(d: Dict)
  {
    forall i, j :: 0 <= i < j < |d| ==> Fold(d[i].key) != Fold(d[j].key)
  }

  /** The index of the entry whose key equals k ignoring case. */
  function IndexOf(d: Dict, k: string): (r: Option<nat>)
    ensures r.Some? ==> r.value < |d| && Fold(d[r.value].key) == Fold(k)
    ensures r.None? ==> forall i :: 0 <= i < |d| ==> Fold(d[i].key) != Fold(k)
    ensures r.Some? ==> forall i :: 0 <= i < r.value ==> Fold(d[i].key) != Fold(k)
  {
    if d == [] then None
    else if Fold(d[0].key) == Fold(k) then Some(0)
    else
      match IndexOf(d[1..], k)
      case None => None
      case Some(i) => Some(i + 1)
  }

  /** The indexer getter (TryGetValue): the value under k, compared ignoring case. */
  function Get(d: Dict, k: string): Option<Value>
  {
    match IndexOf(d, k)
    case None => None
    case Some(i) => Some(d[i].value)
  }

  /** The indexer setter d[k] = v: an entry whose key equals k ignoring case gets the new value
      and keeps its key; otherwise the entry is added at the end. */
  function Set(d: Dict, k: string, v: Value): Dict
  {
    match IndexOf(d, k)
    case None => d + [Entry(k, v)]
    case Some(i) => d[i := Entry(d[i].key, v)]
  }

  /** After d[k] = v, the value under every spelling of k is v, every other key keeps its
      value, the keys stay distinct, and the dictionary grows only when k was new. */
  lemma SetMeans(d: Dict, k: string, v: Value)
    requires KeysDistinct(d)
    ensures KeysDistinct(Set(d, k, v))
    ensures forall k' :: Fold(k') == Fold(k) ==> Get(Set(d, k, v), k') == Some(v)
    ensures forall k' :: Fold(k') != Fold(k) ==> Get(Set(d, k, v), k') == Get(d, k')
    ensures |Set(d, k, v)| == if Get(d, k).Some? then |d| else |d| + 1
  {
    var r := Set(d, k, v);
    forall k' | true
      ensures Fold(k') == Fold(k) ==> Get(r, k') == Some(v)
      ensures Fold(k') != Fold(k) ==> Get(r, k') == Get(d, k')
    {
      if Fold(k') == Fold(k) {
        IndexOfFolded(d, k', k);
        IndexOfFolded(r, k', k);
      }
      match IndexOf(d, k)
      case None =>
        IndexOfAppend(d, Entry(k, v), k');
      case Some(i) =>
        IndexOfSameFolds(d, r, k');
    }
  }

  /** Lookups only depend on the folded key. */
  lemma {:induction false} IndexOfFolded(d: Dict, a: string, b: string)
    requires Fold(a) == Fold(b)
    ensures IndexOf(d, a) == IndexOf(d, b)
  {
    if d != [] {
      IndexOfFolded(d[1..], a, b);
    }
  }

  /** Lookups only depend on the folded keys, position by position. */
  lemma {:induction false} IndexOfSameFolds(d: Dict, r: Dict, k: string)
    requires |r| == |d| && forall i :: 0 <= i < |d| ==> Fold(r[i].key) == Fold(d[i].key)
    ensures IndexOf(r, k) == IndexOf(d, k)
  {
    if d != [] {
      IndexOfSameFolds(d[1..], r[1..], k);
    }
  }

  /** Appending an entry: it is found exactly when nothing before it matches and its key does. */
  lemma {:induction false} IndexOfAppend(d: Dict, e: Entry, k: string)
    ensures Fold(e.key) != Fold(k) ==> IndexOf(d + [e], k) == IndexOf(d, k)
    ensures Fold(e.key) == Fold(k) && IndexOf(d, k).None? ==> IndexOf(d + [e], k) == Some(|d|)
  {
    if d == [] {
      assert (d + [e])[1..] == [];
    } else {
      assert (d + [e])[1..] == d[1..] + [e];
      IndexOfAppend(d[1..], e, k);
    }
  }

  /** The dictionary after d[e.Key] = e.Value for each entry in order; with skipNull, entries
      whose value is null are passed over. */
  function Assigned(d: Dict, entries: seq<Entry>, skipNull: bool): Dict
    decreases |entries|
  {
    if entries == [] then d
    else
      var prev := Assigned(d, entries[..|entries| - 1], skipNull);
      var e := entries[|entries| - 1];
      if skipNull && e.value.Null? then prev else Set(prev, e.key, e.value)
  }

  /** The value of the last entry whose key equals k ignoring case (with skipNull, the last such
      entry whose value is not null). */
  function LastValue(entries: seq<Entry>, k: string, skipNull: bool): Option<Value>
    decreases |entries|
  {
    if entries == [] then None
    else
      var e := entries[|entries| - 1];
      if Fold(e.key) == Fold(k) && !(skipNull && e.value.Null?) then Some(e.value)
      else LastValue(entries[..|entries| - 1], k, skipNull)
  }

  /** After assigning the entries, each key holds the value of the last entry assigned to it, or
      what it held before when none was; the keys stay distinct. */
  lemma {:induction false} AssignedMeans(d: Dict, entries: seq<Entry>, skipNull: bool)
    requires KeysDistinct(d)
    ensures KeysDistinct(Assigned(d, entries, skipNull))
    ensures forall k :: Get(Assigned(d, entries, skipNull), k) == LastValue(entries, k, skipNull).Or(Get(d, k))
    decreases |entries|
  {
    if entries != [] {
      var init := entries[..|entries| - 1];
      var e := entries[|entries| - 1];
      AssignedMeans(d, init, skipNull);
      if !(skipNull && e.value.Null?) {
        SetMeans(Assigned(d, init, skipNull), e.key, e.value);
      }
    }
  }

  /** The foreach loop d[kv.Key] = kv.Value over entries, skipping null values when skipNull. */
  method AssignAll(d: Dict, entries: seq<Entry>, skipNull: bool) returns (r: Dict)
    ensures r == Assigned(d, entries, skipNull)
  {
    r := d;
    for i := 0 to |entries|
      invariant r == Assigned(d, entries[..i], skipNull)
    {
      assert entries[..i + 1][..i] == entries[..i];
      if !(skipNull && entries[i].value.Null?) {
        r := Set(r, entries[i].key, entries[i].value);
      }
    }
    assert entries[..|entries|] == entries;
  }

  /** No entry after entries[i] has a key equal to its key ignoring case. */
  predicate NotOverridden(entries: seq<Entry>, i: nat)
    requires i < |entries|
  {
    forall j :: i < j < |entries| ==> Fold(entries[j].key) != Fold(entries[i].key)
  }

  /** An entry no later entry overrides holds the last value for its key. */
  lemma {:induction false} LastValueAt(entries: seq<Entry>, i: nat, skipNull: bool)
    requires i < |entries| && !(skipNull && entries[i].value.Null?)
    requires NotOverridden(entries, i)
    ensures LastValue(entries, entries[i].key, skipNull) == Some(entries[i].value)
    decreases |entries|
  {
    if i < |entries| - 1 {
      var init := entries[..|entries| - 1];
      assert init[i] == entries[i];
      LastValueAt(init, i, skipNull);
    }
  }
}
