/** The size-bounded dynamic table of section 4 of RFC 7541. Sizes are 32-bit words. */
module DynamicTable {
  import opened Bits
  import opened HeaderTable


  /** HeaderField.Size: the octets of name and value plus 32, as a 32-bit word. */
  function Size(f: HeaderField): (r: nat)
    ensures r < WORD
  {
    (|f.name| + |f.value| + 32) % WORD
  }

  function Add32(a: nat, b: nat): nat { (a + b) % WORD }

  function Sub32(a: nat, b: nat): nat { (a - b) % WORD }

  /** The value of a dynamic table: oldest entry first. */
  datatype Tab = Tab(ents: seq<HeaderField>, size: nat, maxSize: nat)

  function Evict(t: Tab): (r: Tab)
    ensures r.maxSize == t.maxSize && |r.ents| <= |t.ents| && r.ents == t.ents[|t.ents| - |r.ents|..]
    ensures r.ents == [] || r.size <= r.maxSize
    decreases |t.ents|
  {
    if t.size > t.maxSize && t.ents != [] then
      Evict(Tab(t.ents[1..], Sub32(t.size, Size(t.ents[0])), t.maxSize))
    else t
  }

  function Add(t: Tab, f: HeaderField): Tab {
    Evict(Tab(t.ents + [f], Add32(t.size, Size(f)), t.maxSize))
  }

  function SetMaxSize(t: Tab, v: nat): Tab {
    Evict(t.(maxSize := v))
  }

  function NewTab(maxSize: nat): Tab { Tab([], 0, maxSize) }

  // ---- The table in place ----

  class Table {
    const table: HeaderFieldTable
    var size: nat
    var maxSize: nat

    ghost predicate Valid()
      reads this, table
    {
      table.dynamic && table.Valid()
    }

    ghost function Value(): Tab
      reads this, table
    {
      Tab(table.ents, size, maxSize)
    }

    constructor (maxSize: nat)
      ensures Valid() && fresh(table) && Value() == NewTab(maxSize)
    {
      table := new HeaderFieldTable(true);
      size := 0;
      this.maxSize := maxSize;
    }

    method SetMax(v: nat)
      requires Valid()
      modifies this, table
      ensures Valid() && Value() == SetMaxSize(old(Value()), v)
    {
      maxSize := v;
      EvictOld();
    }

    method AddField(f: HeaderField)
      requires Valid()
      modifies this, table
      ensures Valid() && Value() == Add(old(Value()), f)
    {
      table.AddEntry(f);
      size := Add32(size, Size(f));
      EvictOld();
    }

    method EvictOld()
      requires Valid()
      modifies this, table
      ensures Valid() && Value() == Evict(old(Value()))
    {
      hide NamesFrom, PairsFrom, Evict, Sub32, Size;
      var n := 0;
      ghost var ents := table.ents;
      assert ents[0..] == ents;
      while size > maxSize && n < |table.ents|
        invariant 0 <= n <= |ents| && ents == table.ents && maxSize == old(maxSize)
        invariant Evict(Tab(ents[n..], size, maxSize)) == Evict(old(Value()))
        modifies this
        decreases |ents| - n
      {
        EvictFirst(ents, n, size, maxSize);
        size := Sub32(size, Size(table.ents[n]));
        n := n + 1;
      }
      EvictNone(ents, n, size, maxSize);
      table.EvictOldest(n);
    }
  }

  lemma EvictFirst(ents: seq<HeaderField>, n: nat, size: nat, maxSize: nat)
    requires n < |ents| && size > maxSize
    ensures Evict(Tab(ents[n..], size, maxSize)) == Evict(Tab(ents[n + 1..], Sub32(size, Size(ents[n])), maxSize))
  {
    assert ents[n..][1..] == ents[n + 1..];
  }

  lemma EvictNone(ents: seq<HeaderField>, n: nat, size: nat, maxSize: nat)
    requires n <= |ents| && !(size > maxSize && n < |ents|)
    ensures Evict(Tab(ents[n..], size, maxSize)) == Tab(ents[n..], size, maxSize)
  {
  }

  // ---- Properties ----

  /** Evicting to one bound and then to a smaller one is evicting to the smaller one at once. */
  lemma {:induction false} EvictTwice(t: Tab, a: nat, b: nat)
    requires b <= a
    ensures SetMaxSize(SetMaxSize(t, a), b) == SetMaxSize(t, b)
    decreases |t.ents|
  {
    if t.size > a && t.ents != [] {
      EvictTwice(Tab(t.ents[1..], Sub32(t.size, Size(t.ents[0])), t.maxSize), a, b);
    }
  }

  /** The total size of a run of entries, without wrap-around. */
  function Total(ents: seq<HeaderField>): nat {
    if ents == [] then 0 else |ents[0].name| + |ents[0].value| + 32 + Total(ents[1..])
  }

  lemma {:induction false} TotalSnoc(ents: seq<HeaderField>, f: HeaderField)
    ensures Total(ents + [f]) == Total(ents) + |f.name| + |f.value| + 32
  {
    if ents == [] {
      assert ents + [f] == [f] && [f][1..] == [];
    } else {
      assert (ents + [f])[1..] == ents[1..] + [f];
      TotalSnoc(ents[1..], f);
    }
  }

  /** The size field is the exact sum of the entries, and the table is within its bound. */
  ghost predicate Exact(t: Tab) {
    t.size == Total(t.ents) <= t.maxSize < WORD
  }

  /** `r` is the longest run of newest entries of `ents` that fits `maxSize`. */
  ghost predicate LongestNewestRun(ents: seq<HeaderField>, maxSize: nat, r: seq<HeaderField>) {
    && |r| <= |ents| && r == ents[|ents| - |r|..]
    && Total(r) <= maxSize
    && (|r| < |ents| ==> Total(ents[|ents| - |r| - 1..]) > maxSize)
  }

  lemma {:induction false} EvictLongest(t: Tab)
    requires t.size == Total(t.ents) < WORD && t.maxSize < WORD
    ensures Exact(Evict(t)) && LongestNewestRun(t.ents, t.maxSize, Evict(t).ents)
    decreases |t.ents|
  {
    hide Evict, LongestNewestRun, Total, Size, Sub32;
    EvictIs(t);
    if t.size > t.maxSize && t.ents != [] {
      WithoutFirst(t.ents);
      EvictLongest(Tab(t.ents[1..], Sub32(t.size, Size(t.ents[0])), t.maxSize));
      RunCons(t.ents, t.maxSize, Evict(t).ents);
    } else {
      NothingTotal();
      RunWhole(t.ents, t.maxSize);
    }
  }

  lemma NothingTotal()
    ensures Total([]) == 0
  {
  }

  lemma WithoutFirst(ents: seq<HeaderField>)
    requires ents != [] && Total(ents) < WORD
    ensures Sub32(Total(ents), Size(ents[0])) == Total(ents[1..]) < WORD
  {
    assert Total(ents) - Size(ents[0]) == Total(ents[1..]);
    hide Total, Size;
  }

  lemma EvictIs(t: Tab)
    ensures Evict(t) ==
            if t.size > t.maxSize && t.ents != [] then
              Evict(Tab(t.ents[1..], Sub32(t.size, Size(t.ents[0])), t.maxSize))
            else t
  {
  }

  lemma RunCons(ents: seq<HeaderField>, maxSize: nat, r: seq<HeaderField>)
    requires ents != [] && Total(ents) > maxSize && LongestNewestRun(ents[1..], maxSize, r)
    ensures LongestNewestRun(ents, maxSize, r)
  {
    hide Total;
    var rest := ents[1..];
    if |r| < |rest| {
      assert rest[|rest| - |r| - 1..] == ents[|ents| - |r| - 1..];
    } else {
      assert ents[|ents| - |r| - 1..] == ents;
    }
  }

  lemma RunWhole(ents: seq<HeaderField>, maxSize: nat)
    requires Total(ents) <= maxSize
    ensures LongestNewestRun(ents, maxSize, ents)
  {
    assert ents[0..] == ents;
  }

  /** Adding an entry, or changing the bound, leaves the longest newest run that fits, and an exact
      size, as long as the sum does not leave a 32-bit word. */
  lemma AddLongest(t: Tab, f: HeaderField)
    requires Exact(t) && t.size + |f.name| + |f.value| + 32 < WORD
    ensures Exact(Add(t, f)) && LongestNewestRun(t.ents + [f], t.maxSize, Add(t, f).ents)
  {
    TotalSnoc(t.ents, f);
    EvictLongest(Tab(t.ents + [f], Add32(t.size, Size(f)), t.maxSize));
  }

  lemma SetMaxLongest(t: Tab, v: nat)
    requires Exact(t) && v < WORD
    ensures Exact(SetMaxSize(t, v)) && LongestNewestRun(t.ents, v, SetMaxSize(t, v).ents)
  {
    EvictLongest(t.(maxSize := v));
  }
}
