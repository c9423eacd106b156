/** Association lists: an insertion-ordered index as a plain sequence of (id, value) pairs.
    This is the reference model that the ordered collection refines. */
module AssocList {

  type Entry<T> = (string, T)

  function Ids<T>(s: seq<Entry<T>>): (ids: seq<string>)
    ensures |ids| == |s| && forall i :: 0 <= i < |s| ==> ids[i] == s[i].0
  {
    seq(|s|, i requires 0 <= i < |s| => s[i].0)
  }

  predicate Has<T>(s: seq<Entry<T>>, k: string) {
    exists i :: 0 <= i < |s| && s[i].0 == k
  }

  ghost predicate Distinct<T>(s: seq<Entry<T>>) {
    forall i, j :: 0 <= i < j < |s| ==> s[i].0 != s[j].0
  }

  /** What a lookup by id sees, with the order forgotten. */
  ghost function Lookup<T>(s: seq<Entry<T>>): map<string, T> {
    if s == [] then map[] else Lookup(s[..|s| - 1])[s[|s| - 1].0 := s[|s| - 1].1]
  }

  // ---------------------------------------------------------------- operations

  function Put<T>(s: seq<Entry<T>>, k: string, v: T): seq<Entry<T>> {
    if Has(s, k) then
      seq(|s|, i requires 0 <= i < |s| => if s[i].0 == k then (k, v) else s[i])
    else
      s + [(k, v)]
  }

  function Filter<T>(s: seq<Entry<T>>, keep: Entry<T> -> bool): seq<Entry<T>> {
    if s == [] then []
    else
      var rest := Filter(s[..|s| - 1], keep);
      if keep(s[|s| - 1]) then rest + [s[|s| - 1]] else rest
  }

  function NotAt<T>(k: string): Entry<T> -> bool {
    (e: Entry<T>) => e.0 != k
  }

  function Unmatched<T>(match': T -> bool): Entry<T> -> bool {
    (e: Entry<T>) => !match'(e.1)
  }

  function Remove<T>(s: seq<Entry<T>>, k: string): seq<Entry<T>> {
    Filter(s, NotAt(k))
  }

  function RemoveWhere<T>(s: seq<Entry<T>>, match': T -> bool): seq<Entry<T>> {
    Filter(s, Unmatched(match'))
  }

  /** The position of the first matching entry, or -1. */
  function FirstWhere<T>(s: seq<Entry<T>>, match': T -> bool): (first: int)
    ensures -1 <= first < |s|
  {
    if s == [] then -1
    else
      var before := FirstWhere(s[..|s| - 1], match');
      if before >= 0 then before else if match'(s[|s| - 1].1) then |s| - 1 else -1
  }

  lemma {:induction false} FirstWhereIs<T>(s: seq<Entry<T>>, match': T -> bool)
    ensures var first := FirstWhere(s, match');
            && (first >= 0 ==> match'(s[first].1) && forall i :: 0 <= i < first ==> !match'(s[i].1))
            && (first < 0 ==> forall i :: 0 <= i < |s| ==> !match'(s[i].1))
  {
    if s != [] {
      FirstWhereIs(s[..|s| - 1], match');
      assert forall i :: 0 <= i < |s| - 1 ==> s[..|s| - 1][i] == s[i];
    }
  }

  /** Sorts values into those that overwrite a held entry and those that are new. */
  function Merge<T>(held: seq<Entry<T>>, added: seq<Entry<T>>, values: seq<T>, key: T -> string)
    : (r: (seq<Entry<T>>, seq<Entry<T>>))
    ensures Ids(r.0) == Ids(held)
  {
    if values == [] then (held, added)
    else
      var (h, f) := Merge(held, added, values[..|values| - 1], key);
      var v := values[|values| - 1];
      if Has(h, key(v)) then (Put(h, key(v), v), f) else (h, Put(f, key(v), v))
  }

  function InsertAt<T>(s: seq<Entry<T>>, index: int, values: seq<T>, key: T -> string): seq<Entry<T>> {
    var (held, added) := Merge(s, [], values, key);
    var at := if 0 <= index <= |s| then index else |s|;
    assert |held| == |Ids(held)| == |Ids(s)| == |s|;
    Splice(held, at, added)
  }

  /** h with f put in at a position. */
  function Splice<T>(h: seq<Entry<T>>, at: nat, f: seq<Entry<T>>): (r: seq<Entry<T>>)
    requires at <= |h|
  {
    seq(|h| + |f|, i requires 0 <= i < |h| + |f| =>
      if i < at then h[i] else if i < at + |f| then f[i - at] else h[i - |f|])
  }

  function Reset<T>(values: seq<T>, key: T -> string): seq<Entry<T>> {
    if values == [] then []
    else Put(Reset(values[..|values| - 1], key), key(values[|values| - 1]), values[|values| - 1])
  }

  function Update<T>(s: seq<Entry<T>>, rewrite: (string, T) -> T): (r: seq<Entry<T>>)
    ensures Ids(r) == Ids(s)
  {
    seq(|s|, i requires 0 <= i < |s| => (s[i].0, rewrite(s[i].0, s[i].1)))
  }

  function Values<T>(s: seq<Entry<T>>): (r: seq<T>)
    ensures |r| == |s| && forall i :: 0 <= i < |s| ==> r[i] == s[i].1
  {
    seq(|s|, i requires 0 <= i < |s| => s[i].1)
  }

  // ---------------------------------------------------------------- lookups

  lemma {:induction false} LookupAt<T>(s: seq<Entry<T>>, i: nat)
    requires Distinct(s) && i < |s|
    ensures s[i].0 in Lookup(s) && Lookup(s)[s[i].0] == s[i].1
  {
    if i < |s| - 1 { LookupAt(s[..|s| - 1], i); }
  }

  lemma {:induction false} LookupIndex<T>(s: seq<Entry<T>>, k: string) returns (i: nat)
    requires k in Lookup(s)
    ensures i < |s| && s[i].0 == k && Lookup(s)[k] == s[i].1
  {
    i := |s| - 1;
    if s[i].0 != k { i := LookupIndex(s[..|s| - 1], k); }
  }

  lemma {:induction false} HasLookup<T>(s: seq<Entry<T>>, k: string)
    ensures Has(s, k) <==> k in Lookup(s)
  {
    if s != [] {
      var rest := s[..|s| - 1];
      HasLookup(rest, k);
      if Has(rest, k) {
        var i :| 0 <= i < |rest| && rest[i].0 == k;
        assert s[i].0 == k;
      }
    }
  }

  /** A distinct list is determined by the map that agrees with it everywhere. */
  lemma {:induction false} LookupIs<T>(s: seq<Entry<T>>, m: map<string, T>)
    requires Distinct(s)
    requires forall i :: 0 <= i < |s| ==> s[i].0 in m && m[s[i].0] == s[i].1
    requires forall k :: k in m ==> Has(s, k)
    ensures Lookup(s) == m
  {
    forall k ensures k in Lookup(s) <==> k in m {
      HasLookup(s, k);
      if k in Lookup(s) { var i := LookupIndex(s, k); }
    }
    forall k | k in Lookup(s) ensures k in m && m[k] == Lookup(s)[k] {
      var i := LookupIndex(s, k);
    }
  }

  /** Order and lookups together determine the list. */
  lemma {:induction false} Extensional<T>(s: seq<Entry<T>>, t: seq<Entry<T>>)
    requires Distinct(s) && Distinct(t)
    requires Ids(s) == Ids(t) && Lookup(s) == Lookup(t)
    ensures s == t
  {
    assert |s| == |Ids(s)| == |t|;
    forall i | 0 <= i < |s| ensures s[i] == t[i] {
      assert Ids(s)[i] == Ids(t)[i];
      LookupAt(s, i);
      LookupAt(t, i);
    }
  }

  lemma {:induction false} PutLookup<T>(s: seq<Entry<T>>, k: string, v: T)
    requires Distinct(s)
    ensures Distinct(Put(s, k, v))
    ensures Lookup(Put(s, k, v)) == Lookup(s)[k := v]
  {
    var r := Put(s, k, v);
    var m := Lookup(s)[k := v];
    HasLookup(s, k);
    forall i | 0 <= i < |r| ensures r[i].0 in m && m[r[i].0] == r[i].1 {
      if i < |s| { LookupAt(s, i); }
    }
    forall q | q in m ensures Has(r, q) {
      if q in Lookup(s) {
        var i := LookupIndex(s, q);
        assert r[i].0 == q;
      } else {
        assert r[|s|].0 == k;
      }
    }
    LookupIs(r, m);
  }

  lemma {:induction false} PutIds<T>(s: seq<Entry<T>>, k: string, v: T)
    ensures Ids(Put(s, k, v)) == if k in Lookup(s) then Ids(s) else Ids(s) + [k]
  {
    HasLookup(s, k);
  }

  lemma {:induction false} FilterMembers<T>(s: seq<Entry<T>>, keep: Entry<T> -> bool)
    ensures forall i :: 0 <= i < |Filter(s, keep)| ==> keep(Filter(s, keep)[i]) && Filter(s, keep)[i] in s
    ensures forall i :: 0 <= i < |s| && keep(s[i]) ==> s[i] in Filter(s, keep)
  {
    if s != [] {
      FilterMembers(s[..|s| - 1], keep);
      assert s == s[..|s| - 1] + [s[|s| - 1]];
    }
  }

  lemma {:induction false} FilterDistinct<T>(s: seq<Entry<T>>, keep: Entry<T> -> bool)
    requires Distinct(s)
    ensures Distinct(Filter(s, keep))
  {
    if s != [] {
      FilterDistinct(s[..|s| - 1], keep);
      FilterMembers(s[..|s| - 1], keep);
    }
  }

  lemma {:induction false} FilterLookup<T>(s: seq<Entry<T>>, keep: Entry<T> -> bool)
    requires Distinct(s)
    ensures Distinct(Filter(s, keep))
    ensures Lookup(Filter(s, keep)) == map k | k in Lookup(s) && keep((k, Lookup(s)[k])) :: Lookup(s)[k]
  {
    var r := Filter(s, keep);
    var m := map k | k in Lookup(s) && keep((k, Lookup(s)[k])) :: Lookup(s)[k];
    FilterDistinct(s, keep);
    FilterMembers(s, keep);
    forall i | 0 <= i < |r| ensures r[i].0 in m && m[r[i].0] == r[i].1 {
      var j :| 0 <= j < |s| && s[j] == r[i];
      LookupAt(s, j);
    }
    forall k | k in m ensures Has(r, k) {
      var j := LookupIndex(s, k);
      assert s[j] == (k, m[k]);
    }
    LookupIs(r, m);
  }

  /** One step of a loop that filters from the front. */
  lemma {:induction false} FilterStep<T>(s: seq<Entry<T>>, i: nat, keep: Entry<T> -> bool)
    requires i < |s|
    ensures Filter(s[..i + 1], keep) == if keep(s[i]) then Filter(s[..i], keep) + [s[i]] else Filter(s[..i], keep)
    ensures Ids(Filter(s[..i + 1], keep)) ==
            if keep(s[i]) then Ids(Filter(s[..i], keep)) + [s[i].0] else Ids(Filter(s[..i], keep))
  {
    assert s[..i + 1][..i] == s[..i];
  }

  /** The ids that a deletion drops. */
  ghost function Gone<T>(s: seq<Entry<T>>, match': T -> bool): set<string> {
    if s == [] then {}
    else Gone(s[..|s| - 1], match') + if match'(s[|s| - 1].1) then {s[|s| - 1].0} else {}
  }

  lemma {:induction false} GoneIds<T>(s: seq<Entry<T>>, match': T -> bool)
    requires Distinct(s)
    ensures forall k :: k in Gone(s, match') <==> k in Lookup(s) && match'(Lookup(s)[k])
  {
    if s != [] {
      var rest := s[..|s| - 1];
      GoneIds(rest, match');
      NotBefore(s, |s| - 1);
    }
  }

  lemma {:induction false} NotBefore<T>(s: seq<Entry<T>>, i: nat)
    requires Distinct(s) && i < |s|
    ensures s[i].0 !in Lookup(s[..i])
  {
    if s[i].0 in Lookup(s[..i]) {
      var j := LookupIndex(s[..i], s[i].0);
      assert false;
    }
  }

  lemma {:induction false} GoneLookup<T>(s: seq<Entry<T>>, match': T -> bool)
    requires Distinct(s)
    ensures Distinct(RemoveWhere(s, match'))
    ensures Lookup(RemoveWhere(s, match')) == Lookup(s) - Gone(s, match')
  {
    GoneIds(s, match');
    FilterLookup(s, Unmatched(match'));
  }

  /** A deletion by record, lookup by lookup. */
  lemma {:induction false} Kept<T>(s: seq<Entry<T>>, match': T -> bool)
    requires Distinct(s)
    ensures var r := Lookup(RemoveWhere(s, match'));
            && (forall k :: k in r <==> k in Lookup(s) && !match'(Lookup(s)[k]))
            && (forall k :: k in r ==> r[k] == Lookup(s)[k])
  {
    GoneLookup(s, match');
    GoneIds(s, match');
  }

  /** One step of a loop that deletes from the front. */
  lemma {:induction false} GoneStep<T>(s: seq<Entry<T>>, i: nat, match': T -> bool)
    requires Distinct(s) && i < |s|
    ensures s[i].0 in Lookup(s) - Gone(s[..i], match') && Lookup(s)[s[i].0] == s[i].1
    ensures Gone(s[..i + 1], match') == if match'(s[i].1) then Gone(s[..i], match') + {s[i].0} else Gone(s[..i], match')
    ensures FirstWhere(s[..i + 1], match') ==
            if FirstWhere(s[..i], match') < 0 && match'(s[i].1) then i else FirstWhere(s[..i], match')
  {
    LookupAt(s, i);
    GoneIds(s[..i], match');
    NotBefore(s, i);
    assert s[..i + 1][..i] == s[..i];
  }

  lemma {:induction false} RemoveLookup<T>(s: seq<Entry<T>>, k: string)
    requires Distinct(s)
    ensures Distinct(Remove(s, k)) && Lookup(Remove(s, k)) == Lookup(s) - {k}
    ensures k !in Lookup(s) ==> Remove(s, k) == s
  {
    var keep: Entry<T> -> bool := NotAt(k);
    FilterLookup(s, keep);
    if k !in Lookup(s) {
      forall e | e in s ensures keep(e) {
        var i :| 0 <= i < |s| && s[i] == e;
        LookupAt(s, i);
      }
      FilterAll(s, keep);
    }
  }

  /** Filtering is decided entry by entry, so it composes and it settles. */
  lemma {:induction false} FilterFilter<T>(s: seq<Entry<T>>, p: Entry<T> -> bool, q: Entry<T> -> bool)
    ensures Filter(Filter(s, p), q) == Filter(s, (e: Entry<T>) => p(e) && q(e))
  {
    if s != [] {
      FilterFilter(s[..|s| - 1], p, q);
      var a := Filter(s[..|s| - 1], p);
      var x := s[|s| - 1];
      if p(x) {
        assert (a + [x])[..|a|] == a;
      }
    }
  }

  lemma {:induction false} FilterSame<T>(s: seq<Entry<T>>, p: Entry<T> -> bool, q: Entry<T> -> bool)
    requires forall e :: e in s ==> p(e) == q(e)
    ensures Filter(s, p) == Filter(s, q)
  {
    if s != [] {
      FilterSame(s[..|s| - 1], p, q);
      assert s[|s| - 1] in s;
    }
  }

  lemma {:induction false} FilterAll<T>(s: seq<Entry<T>>, p: Entry<T> -> bool)
    requires forall e :: e in s ==> p(e)
    ensures Filter(s, p) == s
  {
    if s != [] {
      FilterAll(s[..|s| - 1], p);
      assert s[|s| - 1] in s;
      assert s == s[..|s| - 1] + [s[|s| - 1]];
    }
  }

  lemma {:induction false} FilterConcat<T>(s: seq<Entry<T>>, t: seq<Entry<T>>, p: Entry<T> -> bool)
    ensures Filter(s + t, p) == Filter(s, p) + Filter(t, p)
  {
    if t == [] {
      assert s + t == s;
    } else {
      FilterConcat(s, t[..|t| - 1], p);
      assert (s + t)[..|s + t| - 1] == s + t[..|t| - 1];
    }
  }

  lemma {:induction false} UpdateLookup<T>(s: seq<Entry<T>>, rewrite: (string, T) -> T)
    requires Distinct(s)
    ensures Distinct(Update(s, rewrite))
    ensures Lookup(Update(s, rewrite)) == map k | k in Lookup(s) :: rewrite(k, Lookup(s)[k])
  {
    var r := Update(s, rewrite);
    var m := map k | k in Lookup(s) :: rewrite(k, Lookup(s)[k]);
    forall i | 0 <= i < |r| ensures r[i].0 in m && m[r[i].0] == r[i].1 {
      LookupAt(s, i);
    }
    forall k | k in m ensures Has(r, k) {
      var j := LookupIndex(s, k);
      assert r[j].0 == k;
    }
    LookupIs(r, m);
  }

  /** The list once a rewriting loop has passed its first n entries. */
  ghost function Updated<T>(s: seq<Entry<T>>, n: nat, rewrite: (string, T) -> T): (r: seq<Entry<T>>)
    ensures |r| == |s|
  {
    seq(|s|, i requires 0 <= i < |s| => if i < n then (s[i].0, rewrite(s[i].0, s[i].1)) else s[i])
  }

  /** One step of a loop that rewrites from the front. */
  lemma {:induction false} UpdateStep<T>(s: seq<Entry<T>>, n: nat, rewrite: (string, T) -> T)
    requires Distinct(s) && n < |s|
    ensures Distinct(Updated(s, n, rewrite))
    ensures s[n].0 in Lookup(Updated(s, n, rewrite)) && Lookup(Updated(s, n, rewrite))[s[n].0] == s[n].1
    ensures Lookup(Updated(s, n + 1, rewrite)) ==
            Lookup(Updated(s, n, rewrite))[s[n].0 := rewrite(s[n].0, s[n].1)]
  {
    var u := Updated(s, n, rewrite);
    assert u[n] == s[n];
    LookupAt(u, n);
    PutLookup(u, s[n].0, rewrite(s[n].0, s[n].1));
    assert Put(u, s[n].0, rewrite(s[n].0, s[n].1)) == Updated(s, n + 1, rewrite);
  }

  /** The last value listed under an id is the one that stays. */
  ghost function Listed<T>(values: seq<T>, key: T -> string): map<string, T> {
    if values == [] then map[]
    else Listed(values[..|values| - 1], key)[key(values[|values| - 1]) := values[|values| - 1]]
  }

  lemma {:induction false} ResetLookup<T>(values: seq<T>, key: T -> string)
    ensures Distinct(Reset(values, key)) && Lookup(Reset(values, key)) == Listed(values, key)
  {
    if values != [] {
      ResetLookup(values[..|values| - 1], key);
      PutLookup(Reset(values[..|values| - 1], key), key(values[|values| - 1]), values[|values| - 1]);
    }
  }

  lemma {:induction false} ListedKeys<T>(values: seq<T>, key: T -> string)
    ensures forall k :: k in Listed(values, key) ==>
              Listed(values, key)[k] in values && key(Listed(values, key)[k]) == k
    ensures forall v :: v in values ==> key(v) in Listed(values, key)
  {
    if values != [] {
      ListedKeys(values[..|values| - 1], key);
      assert values == values[..|values| - 1] + [values[|values| - 1]];
    }
  }

  /** Rebuilding an index from its own values, in their order, gives it back. */
  lemma {:induction false} ResetValues<T>(s: seq<Entry<T>>, key: T -> string)
    requires Distinct(s) && forall i :: 0 <= i < |s| ==> key(s[i].1) == s[i].0
    ensures Reset(Values(s), key) == s
  {
    if s != [] {
      var rest := s[..|s| - 1];
      assert Values(s)[..|s| - 1] == Values(rest);
      ResetValues(rest, key);
      assert !Has(rest, s[|s| - 1].0);
      assert s == rest + [s[|s| - 1]];
    }
  }

  /** Held and added entries partition a set of lookups, held ones under unchanged ids. */
  ghost predicate Parts<T>(h: seq<Entry<T>>, f: seq<Entry<T>>, held: map<string, T>, listed: map<string, T>) {
    && Distinct(h) && Distinct(f)
    && Lookup(h).Keys == held.Keys
    && Lookup(h).Keys !! Lookup(f).Keys
    && Lookup(h) + Lookup(f) == held + listed
    && Lookup(f).Keys <= listed.Keys
  }

  lemma {:induction false} MergeLookup<T>(held: seq<Entry<T>>, values: seq<T>, key: T -> string)
    requires Distinct(held)
    ensures var (h, f) := Merge(held, [], values, key); Parts(h, f, Lookup(held), Listed(values, key))
  {
    if values != [] {
      var rest := values[..|values| - 1];
      var v := values[|values| - 1];
      MergeLookup(held, rest, key);
      var (h, f) := Merge(held, [], rest, key);
      MergePut(h, f, Lookup(held), Listed(rest, key), key(v), v);
    }
  }

  lemma {:induction false} MergePut<T>(h: seq<Entry<T>>, f: seq<Entry<T>>, held: map<string, T>, listed: map<string, T>,
                                       k: string, v: T)
    requires Parts(h, f, held, listed)
    ensures Has(h, k) ==> Parts(Put(h, k, v), f, held, listed[k := v])
    ensures !Has(h, k) ==> Parts(h, Put(f, k, v), held, listed[k := v])
  {
    HasLookup(h, k);
    MergeStep(Lookup(h), Lookup(f), k, v);
    assert held + listed[k := v] == (held + listed)[k := v];
    if Has(h, k) {
      PutLookup(h, k, v);
    } else {
      PutLookup(f, k, v);
    }
  }

  lemma {:induction false} MergeStep<T>(h: map<string, T>, f: map<string, T>, k: string, v: T)
    requires h.Keys !! f.Keys
    ensures k in h ==> h[k := v] + f == (h + f)[k := v] && h[k := v].Keys == h.Keys
    ensures k !in h ==> h + f[k := v] == (h + f)[k := v] && h.Keys !! f[k := v].Keys
  {
  }

  lemma {:induction false} SpliceDistinct<T>(h: seq<Entry<T>>, at: nat, f: seq<Entry<T>>)
    requires Distinct(h) && Distinct(f) && Lookup(h).Keys !! Lookup(f).Keys && at <= |h|
    ensures Distinct(Splice(h, at, f))
  {
    forall i, j | 0 <= i < |h| && 0 <= j < |f| ensures h[i].0 != f[j].0 {
      LookupAt(f, j);
      LookupAt(h, i);
    }
  }

  lemma {:induction false} SpliceHas<T>(h: seq<Entry<T>>, at: nat, f: seq<Entry<T>>, k: string)
    requires at <= |h| && (k in Lookup(h) || k in Lookup(f))
    ensures Has(Splice(h, at, f), k)
  {
    var r := Splice(h, at, f);
    if k in Lookup(f) {
      var i := LookupIndex(f, k);
      assert r[at + i].0 == k;
    } else {
      var i := LookupIndex(h, k);
      assert r[if i < at then i else i + |f|].0 == k;
    }
  }

  /** Splicing a list into another keeps every lookup of both. */
  lemma {:induction false} SpliceLookup<T>(h: seq<Entry<T>>, at: nat, f: seq<Entry<T>>)
    requires Distinct(h) && Distinct(f) && Lookup(h).Keys !! Lookup(f).Keys && at <= |h|
    ensures Distinct(Splice(h, at, f))
    ensures Lookup(Splice(h, at, f)) == Lookup(h) + Lookup(f)
  {
    var r := Splice(h, at, f);
    var m := Lookup(h) + Lookup(f);
    SpliceDistinct(h, at, f);
    forall i | 0 <= i < |r| ensures r[i].0 in m && m[r[i].0] == r[i].1 {
      if at <= i < at + |f| { LookupAt(f, i - at); } else { LookupAt(h, if i < at then i else i - |f|); }
    }
    forall k | k in m ensures Has(r, k) {
      SpliceHas(h, at, f, k);
    }
    LookupIs(r, m);
  }

  lemma {:induction false} InsertLookup<T>(s: seq<Entry<T>>, index: int, values: seq<T>, key: T -> string)
    requires Distinct(s)
    ensures Distinct(InsertAt(s, index, values, key))
    ensures Lookup(InsertAt(s, index, values, key)) == Lookup(s) + Listed(values, key)
  {
    var (h, f) := Merge(s, [], values, key);
    MergeLookup(s, values, key);
    assert |h| == |Ids(h)| == |s|;
    SpliceLookup(h, if 0 <= index <= |s| then index else |s|, f);
  }

  /** Where the ids of an insertion stand: the new ones in one run, the held ones around it. */
  lemma {:induction false} InsertIds<T>(s: seq<Entry<T>>, index: int, values: seq<T>, key: T -> string)
    ensures var at := if 0 <= index <= |s| then index else |s|;
            Ids(InsertAt(s, index, values, key)) ==
            Ids(s)[..at] + Ids(Merge(s, [], values, key).1) + Ids(s)[at..]
  {
    var (h, f) := Merge(s, [], values, key);
    assert |h| == |Ids(h)| == |s|;
    forall i | 0 <= i < |s| ensures h[i].0 == s[i].0 {
      assert Ids(h)[i] == Ids(s)[i];
    }
  }
}
