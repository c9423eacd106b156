/** The insertion-ordered index, updated in place: a list of ids beside a table of entries.
    Every operation is proved against the association list the pair stands for. */
module OrderedIndex {
  import opened Wrappers
  import A = AssocList

  class OrderedCollection<T> {
    var ids: seq<string>
    var entries: map<string, T>

    /** Ids are distinct and are exactly the keys of the table. */
    ghost predicate Valid()
      reads this
    {
      && (forall i, j :: 0 <= i < j < |ids| ==> ids[i] != ids[j])
      && (forall i :: 0 <= i < |ids| ==> ids[i] in entries)
      && (forall k :: k in entries ==> k in ids)
    }

    ghost function Contents(): (s: seq<A.Entry<T>>)
      requires Valid()
      reads this
      ensures A.Distinct(s) && A.Ids(s) == ids && A.Lookup(s) == entries
    {
      var s := seq(|ids|, i requires 0 <= i < |ids| reads this requires Valid() => (ids[i], entries[ids[i]]));
      assert forall k :: k in entries ==> A.Has(s, k) by {
        forall k | k in entries ensures A.Has(s, k) {
          var i :| 0 <= i < |ids| && ids[i] == k;
          assert s[i].0 == k;
        }
      }
      A.LookupIs(s, entries);
      s
    }

    /** The representation is the list: no other valid pair stands for s. */
    lemma Represents(s: seq<A.Entry<T>>)
      requires A.Distinct(s) && ids == A.Ids(s) && entries == A.Lookup(s)
      ensures Valid() && Contents() == s
    {
      forall i | 0 <= i < |ids| ensures ids[i] in entries {
        A.LookupAt(s, i);
      }
      forall k | k in entries ensures k in ids {
        var i := A.LookupIndex(s, k);
        assert ids[i] == k;
      }
      A.Extensional(Contents(), s);
    }

    constructor ()
      ensures Valid() && Contents() == []
    {
      ids, entries := [], map[];
    }

    method Get(id: string) returns (value: Option<T>)
      requires Valid()
      ensures value == if id in A.Lookup(Contents()) then Some(A.Lookup(Contents())[id]) else None
    {
      value := if id in entries then Some(entries[id]) else None;
    }

    method Values() returns (values: seq<T>)
      requires Valid()
      ensures values == A.Values(Contents())
    {
      values := [];
      for i := 0 to |ids|
        invariant values == A.Values(Contents()[..i])
      {
        values := values + [entries[ids[i]]];
      }
    }

    method Set(id: string, value: T)
      requires Valid()
      modifies this
      ensures Valid() && Contents() == A.Put(old(Contents()), id, value)
    {
      ghost var was := Contents();
      if id !in entries {
        ids := ids + [id];
      }
      entries := entries[id := value];
      A.PutLookup(was, id, value);
      A.PutIds(was, id, value);
      Represents(A.Put(was, id, value));
    }

    method Delete(id: string)
      requires Valid()
      modifies this
      ensures Valid() && Contents() == A.Remove(old(Contents()), id)
    {
      ghost var was := Contents();
      A.RemoveLookup(was, id);
      if id !in entries {
        return;
      }
      entries := entries - {id};
      ids := Without(ids, id, was);
      Represents(A.Remove(was, id));
    }

    static method Without(ids: seq<string>, id: string, ghost was: seq<A.Entry<T>>) returns (kept: seq<string>)
      requires ids == A.Ids(was)
      ensures kept == A.Ids(A.Remove(was, id))
    {
      kept := [];
      for i := 0 to |ids|
        invariant kept == A.Ids(A.Filter(was[..i], A.NotAt(id)))
      {
        A.FilterStep(was, i, A.NotAt(id));
        if ids[i] != id {
          kept := kept + [ids[i]];
        }
      }
      assert was[..|ids|] == was;
    }

    /** Removes the matching entries and reports where the first of them stood, or -1. */
    method DeleteWhere(match': T -> bool) returns (first: int)
      requires Valid()
      modifies this
      ensures Valid() && Contents() == A.RemoveWhere(old(Contents()), match')
      ensures first == A.FirstWhere(old(Contents()), match')
    {
      ghost var was := Contents();
      ids, entries, first := Sweep(ids, entries, match', was);
      A.GoneLookup(was, match');
      Represents(A.RemoveWhere(was, match'));
    }

    static method Sweep(ids: seq<string>, entries: map<string, T>, match': T -> bool, ghost was: seq<A.Entry<T>>)
      returns (kept: seq<string>, table: map<string, T>, first: int)
      requires A.Distinct(was) && ids == A.Ids(was) && entries == A.Lookup(was)
      ensures kept == A.Ids(A.RemoveWhere(was, match'))
      ensures table == A.Lookup(A.RemoveWhere(was, match'))
      ensures first == A.FirstWhere(was, match')
    {
      first, kept, table := -1, [], entries;
      for i := 0 to |ids|
        invariant Swept(was, i, match', kept, table, first)
      {
        SweptStep(was, i, match', kept, table, first);
        if match'(table[ids[i]]) {
          if first < 0 {
            first := i;
          }
          table := table - {ids[i]};
          continue;
        }
        kept := kept + [ids[i]];
      }
      assert was[..|ids|] == was;
      A.GoneLookup(was, match');
    }

    /** The state of a deletion that has looked at the first n entries. */
    static ghost predicate Swept(was: seq<A.Entry<T>>, n: nat, match': T -> bool,
                                 kept: seq<string>, table: map<string, T>, first: int)
      requires n <= |was|
    {
      && kept == A.Ids(A.Filter(was[..n], A.Unmatched(match')))
      && table == A.Lookup(was) - A.Gone(was[..n], match')
      && first == A.FirstWhere(was[..n], match')
    }

    static lemma SweptStep(was: seq<A.Entry<T>>, n: nat, match': T -> bool,
                           kept: seq<string>, table: map<string, T>, first: int)
      requires n < |was| && A.Distinct(was) && Swept(was, n, match', kept, table, first)
      ensures was[n].0 in table && table[was[n].0] == was[n].1
      ensures match'(was[n].1) ==>
        Swept(was, n + 1, match', kept, table - {was[n].0}, if first < 0 then n else first)
      ensures !match'(was[n].1) ==> Swept(was, n + 1, match', kept + [was[n].0], table, first)
    {
      A.FilterStep(was, n, A.Unmatched(match'));
      A.GoneStep(was, n, match');
    }

    /** Adds values at the given position, at the end when that is outside the collection. */
    method InsertAt(index: int, values: seq<T>, key: T -> string)
      requires Valid()
      modifies this
      ensures Valid() && Contents() == A.InsertAt(old(Contents()), index, values, key)
    {
      ghost var was := Contents();
      A.InsertLookup(was, index, values, key);
      A.InsertIds(was, index, values, key);
      var table, added := Absorb(entries, values, key, was);
      var at := if index < 0 || index > |ids| then |ids| else index;
      ids, entries := ids[..at] + added + ids[at..], table;
      Represents(A.InsertAt(was, index, values, key));
    }

    static method Absorb(entries: map<string, T>, values: seq<T>, key: T -> string, ghost was: seq<A.Entry<T>>)
      returns (table: map<string, T>, added: seq<string>)
      requires A.Distinct(was) && entries == A.Lookup(was)
      ensures table == A.Lookup(was) + A.Listed(values, key)
      ensures added == A.Ids(A.Merge(was, [], values, key).1)
    {
      ghost var h, f := was, [];
      table, added := entries, [];
      for j := 0 to |values|
        invariant (h, f) == A.Merge(was, [], values[..j], key)
        invariant A.Parts(h, f, A.Lookup(was), A.Listed(values[..j], key))
        invariant added == A.Ids(f) && table == A.Lookup(h) + A.Lookup(f)
      {
        var id := key(values[j]);
        assert values[..j + 1][..j] == values[..j];
        A.MergePut(h, f, A.Lookup(was), A.Listed(values[..j], key), id, values[j]);
        A.MergeStep(A.Lookup(h), A.Lookup(f), id, values[j]);
        A.HasLookup(h, id);
        if id !in table {
          added := added + [id];
        }
        table := table[id := values[j]];
        if A.Has(h, id) {
          A.PutLookup(h, id, values[j]);
          h := A.Put(h, id, values[j]);
        } else {
          A.PutLookup(f, id, values[j]);
          A.PutIds(f, id, values[j]);
          f := A.Put(f, id, values[j]);
        }
      }
      assert values[..|values|] == values;
    }

    /** Replaces every entry with the given values, in their order. */
    method Reset(values: seq<T>, key: T -> string)
      modifies this
      ensures Valid() && Contents() == A.Reset(values, key)
    {
      ids, entries := [], map[];
      for j := 0 to |values|
        invariant Valid() && Contents() == A.Reset(values[..j], key)
      {
        Set(key(values[j]), values[j]);
        assert values[..j + 1][..j] == values[..j];
      }
      assert values[..|values|] == values;
    }

    method Update(rewrite: (string, T) -> T)
      requires Valid()
      modifies this
      ensures Valid() && Contents() == A.Update(old(Contents()), rewrite)
    {
      ghost var was := Contents();
      entries := Rewrite(ids, entries, rewrite, was);
      A.UpdateLookup(was, rewrite);
      Represents(A.Update(was, rewrite));
    }

    static method Rewrite(ids: seq<string>, entries: map<string, T>, rewrite: (string, T) -> T,
                          ghost was: seq<A.Entry<T>>)
      returns (table: map<string, T>)
      requires A.Distinct(was) && ids == A.Ids(was) && entries == A.Lookup(was)
      ensures table == A.Lookup(A.Update(was, rewrite))
    {
      table := entries;
      assert A.Updated(was, 0, rewrite) == was;
      for i := 0 to |ids|
        invariant table == A.Lookup(A.Updated(was, i, rewrite))
      {
        A.UpdateStep(was, i, rewrite);
        table := table[ids[i] := rewrite(ids[i], table[ids[i]])];
      }
      assert A.Updated(was, |ids|, rewrite) == A.Update(was, rewrite);
    }
  }
}
