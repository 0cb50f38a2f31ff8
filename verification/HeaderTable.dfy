/** Header fields and the table that indexes them by name and by name and value. */
module HeaderTable {
  import opened Bits

  type Str = seq<Byte>

  /** The octets of an ASCII literal. */
  function Ascii(s: string): Str {
    seq(|s|, i requires 0 <= i < |s| => (s[i] as int) % 256)
  }

  datatype HeaderField = HeaderField(name: Str, value: Str, sensitive: bool)

  /** What a search reports: a 1-based index, or 0, and whether the value matched as well. */
  datatype Found = Found(index: nat, nameValueMatch: bool)

  // ---- The plain linear scan, newest entry first ----

  function NewestName(ents: seq<HeaderField>, n: Str): (r: Option<nat>)
    ensures r.Some? ==> r.value < |ents| && ents[r.value].name == n
    ensures r.Some? ==> forall j :: r.value < j < |ents| ==> ents[j].name != n
    ensures r.None? ==> forall j :: 0 <= j < |ents| ==> ents[j].name != n
  {
    if ents == [] then None
    else
      var k := |ents| - 1;
      if ents[k].name == n then Some(k) else NewestName(ents[..k], n)
  }

  function NewestPair(ents: seq<HeaderField>, n: Str, v: Str): (r: Option<nat>)
    ensures r.Some? ==> r.value < |ents| && ents[r.value].name == n && ents[r.value].value == v
    ensures r.Some? ==> forall j :: r.value < j < |ents| ==> ents[j].name != n || ents[j].value != v
    ensures r.None? ==> forall j :: 0 <= j < |ents| ==> ents[j].name != n || ents[j].value != v
  {
    if ents == [] then None
    else
      var k := |ents| - 1;
      if ents[k].name == n && ents[k].value == v then Some(k) else NewestPair(ents[..k], n, v)
  }

  /** Where the entry at position `k` of a table is addressed: the newest entry of a dynamic table
      has index 1, the first entry of the static table has. */
  function IndexOf(count: nat, k: nat, dynamic: bool): (i: nat)
    requires k < count
    ensures 1 <= i <= count
  {
    if dynamic then count - k else k + 1
  }

  /** The newest entry with the same name and value, else the newest with the same name, else 0.
      Sensitive fields are never matched by value. */
  function Scan(ents: seq<HeaderField>, f: HeaderField, dynamic: bool): (r: Found)
    ensures r.index <= |ents|
    ensures r.nameValueMatch ==> r.index != 0 && !f.sensitive
  {
    match (if f.sensitive then None else NewestPair(ents, f.name, f.value))
    case Some(k) => Found(IndexOf(|ents|, k, dynamic), true)
    case None =>
      match NewestName(ents, f.name)
      case Some(k) => Found(IndexOf(|ents|, k, dynamic), false)
      case None => Found(0, false)
  }

  // ---- The indexed table ----

  /** The map holds the unique id of the newest entry with each name, for the names whose newest
      entry is at position `k` or after. */
  ghost predicate NamesFrom(ents: seq<HeaderField>, evicted: nat, byName: map<Str, nat>, k: nat) {
    forall n: Str :: (n in byName <==> NewestName(ents, n).Some? && NewestName(ents, n).value >= k) &&
                     (n in byName ==> byName[n] == evicted + NewestName(ents, n).value + 1)
  }

  ghost predicate PairsFrom(ents: seq<HeaderField>, evicted: nat, byPair: map<(Str, Str), nat>, k: nat) {
    forall n: Str, v: Str ::
      ((n, v) in byPair <==> NewestPair(ents, n, v).Some? && NewestPair(ents, n, v).value >= k) &&
      ((n, v) in byPair ==> byPair[(n, v)] == evicted + NewestPair(ents, n, v).value + 1)
  }

  lemma AddName(ents: seq<HeaderField>, evicted: nat, byName: map<Str, nat>, f: HeaderField)
    requires NamesFrom(ents, evicted, byName, 0)
    ensures NamesFrom(ents + [f], evicted, byName[f.name := |ents| + evicted + 1], 0)
  {
    assert (ents + [f])[..|ents|] == ents;
  }

  lemma AddPair(ents: seq<HeaderField>, evicted: nat, byPair: map<(Str, Str), nat>, f: HeaderField)
    requires PairsFrom(ents, evicted, byPair, 0)
    ensures PairsFrom(ents + [f], evicted, byPair[(f.name, f.value) := |ents| + evicted + 1], 0)
  {
    assert (ents + [f])[..|ents|] == ents;
  }

  function WithoutName(byName: map<Str, nat>, n: Str, id: nat): map<Str, nat> {
    if n in byName && byName[n] == id then byName - {n} else byName
  }

  function WithoutPair(byPair: map<(Str, Str), nat>, p: (Str, Str), id: nat): map<(Str, Str), nat> {
    if p in byPair && byPair[p] == id then byPair - {p} else byPair
  }

  lemma EvictName(ents: seq<HeaderField>, evicted: nat, byName: map<Str, nat>, k: nat)
    requires k < |ents| && NamesFrom(ents, evicted, byName, k)
    ensures NamesFrom(ents, evicted, WithoutName(byName, ents[k].name, evicted + k + 1), k + 1)
  {
  }

  lemma EvictPair(ents: seq<HeaderField>, evicted: nat, byPair: map<(Str, Str), nat>, k: nat)
    requires k < |ents| && PairsFrom(ents, evicted, byPair, k)
    ensures PairsFrom(ents, evicted, WithoutPair(byPair, (ents[k].name, ents[k].value), evicted + k + 1), k + 1)
  {
  }

  lemma ShiftNames(ents: seq<HeaderField>, evicted: nat, byName: map<Str, nat>, n: nat)
    requires n <= |ents| && NamesFrom(ents, evicted, byName, n)
    ensures NamesFrom(ents[n..], evicted + n, byName, 0)
  {
    forall s: Str { DropName(ents, n, s); }
  }

  lemma ShiftPairs(ents: seq<HeaderField>, evicted: nat, byPair: map<(Str, Str), nat>, n: nat)
    requires n <= |ents| && PairsFrom(ents, evicted, byPair, n)
    ensures PairsFrom(ents[n..], evicted + n, byPair, 0)
  {
    forall s: Str, v: Str { DropPair(ents, n, s, v); }
  }

  class HeaderFieldTable {
    const dynamic: bool
    var ents: seq<HeaderField>
    var evictCount: nat
    var byName: map<Str, nat>
    var byNameValue: map<(Str, Str), nat>

    ghost predicate Valid()
      reads this
    {
      NamesFrom(ents, evictCount, byName, 0) && PairsFrom(ents, evictCount, byNameValue, 0)
    }

    constructor (dynamic: bool)
      ensures Valid() && ents == [] && this.dynamic == dynamic
    {
      this.dynamic := dynamic;
      ents, evictCount, byName, byNameValue := [], 0, map[], map[];
    }

    method AddEntry(f: HeaderField)
      requires Valid()
      modifies this
      ensures Valid() && ents == old(ents) + [f] && evictCount == old(evictCount)
    {
      hide NamesFrom, PairsFrom, NewestName, NewestPair;
      AddName(ents, evictCount, byName, f);
      AddPair(ents, evictCount, byNameValue, f);
      var id := |ents| + evictCount + 1;
      byName := byName[f.name := id];
      byNameValue := byNameValue[(f.name, f.value) := id];
      ents := ents + [f];
    }

    method EvictOldest(n: nat)
      requires Valid() && n <= |ents|
      modifies this
      ensures Valid() && ents == old(ents)[n..] && evictCount == old(evictCount) + n
    {
      hide NamesFrom, PairsFrom, NewestName, NewestPair;
      for k := 0 to n
        invariant ents == old(ents) && evictCount == old(evictCount)
        invariant NamesFrom(ents, evictCount, byName, k) && PairsFrom(ents, evictCount, byNameValue, k)
      {
        EvictName(ents, evictCount, byName, k);
        EvictPair(ents, evictCount, byNameValue, k);
        var f := ents[k];
        var id := evictCount + k + 1;
        if f.name in byName && byName[f.name] == id {
          byName := byName - {f.name};
        }
        var p := (f.name, f.value);
        if p in byNameValue && byNameValue[p] == id {
          byNameValue := byNameValue - {p};
        }
      }
      ShiftNames(ents, evictCount, byName, n);
      ShiftPairs(ents, evictCount, byNameValue, n);
      ents := ents[n..];
      evictCount := evictCount + n;
    }

    /** search agrees with the linear scan. */
    method Search(f: HeaderField) returns (r: Found)
      requires Valid()
      ensures r == Scan(ents, f, dynamic)
    {
      if !f.sensitive && (f.name, f.value) in byNameValue {
        var i := IdToIndex(byNameValue[(f.name, f.value)]);
        return Found(i, true);
      }
      if f.name in byName {
        var i := IdToIndex(byName[f.name]);
        return Found(i, false);
      }
      return Found(0, false);
    }

    method IdToIndex(id: nat) returns (i: nat)
      requires evictCount < id <= evictCount + |ents|
      ensures i == IndexOf(|ents|, id - evictCount - 1, dynamic)
    {
      var k := id - evictCount - 1;
      if dynamic { return |ents| - k; }
      return k + 1;
    }
  }

  lemma DropName(ents: seq<HeaderField>, n: nat, s: Str)
    requires n <= |ents|
    ensures NewestName(ents[n..], s) ==
            match NewestName(ents, s) case Some(k) => (if k >= n then Some(k - n) else None) case None => None
  {
    var a, b := NewestName(ents[n..], s), NewestName(ents, s);
    if a.Some? {
      assert ents[n + a.value].name == s;
    }
    if b.Some? && b.value >= n {
      assert ents[n..][b.value - n].name == s;
    }
  }

  lemma DropPair(ents: seq<HeaderField>, n: nat, s: Str, v: Str)
    requires n <= |ents|
    ensures NewestPair(ents[n..], s, v) ==
            match NewestPair(ents, s, v) case Some(k) => (if k >= n then Some(k - n) else None) case None => None
  {
    var a, b := NewestPair(ents[n..], s, v), NewestPair(ents, s, v);
    if a.Some? {
      assert ents[n + a.value].name == s && ents[n + a.value].value == v;
    }
    if b.Some? && b.value >= n {
      assert ents[n..][b.value - n].name == s && ents[n..][b.value - n].value == v;
    }
  }
}
