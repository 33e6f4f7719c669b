/** The kernel symbol table: entries shared by a map from addresses and a map from names, names that
    occur twice marked on every entry, and the binary search for the symbol that covers an address. */
module Kallsyms {
  import opened Words
  import opened Machine

  /** A text symbol as it is read. */
  datatype Line = Line(addr: u64, name: string)

  // Reference ------------------------------------------------------------------------------------

  /** The addresses at which a name occurs, in order. */
  function AddrsOf(lines: seq<Line>, name: string): seq<u64> {
    if lines == [] then []
    else
      var last := lines[|lines| - 1];
      AddrsOf(lines[..|lines| - 1], name) + (if last.name == name then [last.addr] else [])
  }

  /** The last name given to an address. */
  function NameAt(lines: seq<Line>, addr: u64): Option<string> {
    if lines == [] then None
    else
      var last := lines[|lines| - 1];
      if last.addr == addr then Some(last.name) else NameAt(lines[..|lines| - 1], addr)
  }

  predicate Repeated(lines: seq<Line>, name: string) {
    |AddrsOf(lines, name)| > 1
  }

  lemma {:induction false} NameAtOccurs(lines: seq<Line>, addr: u64)
    requires NameAt(lines, addr).Some?
    ensures addr in AddrsOf(lines, NameAt(lines, addr).value)
  {
    var last := lines[|lines| - 1];
    if last.addr != addr {
      NameAtOccurs(lines[..|lines| - 1], addr);
    }
  }

  /** What one more line changes. */
  lemma {:induction false} OneMoreLine(lines: seq<Line>, l: Line)
    ensures forall n :: AddrsOf(lines + [l], n) == AddrsOf(lines, n) + (if l.name == n then [l.addr] else [])
    ensures forall a :: NameAt(lines + [l], a) == if a == l.addr then Some(l.name) else NameAt(lines, a)
  {
    assert (lines + [l])[..|lines|] == lines;
  }

  // The table ------------------------------------------------------------------------------------

  class KsymEntry {
    const addr: u64
    const name: string
    var extra: seq<u64>
    var duped: bool

    constructor (addr: u64, name: string)
      ensures this.addr == addr && this.name == name && extra == [] && !duped
    {
      this.addr, this.name := addr, name;
      extra, duped := [], false;
    }
  }

  class Kallsyms {
    var a2s: map<u64, KsymEntry>
    var n2s: map<string, KsymEntry>
    var addrs: seq<u64>
    ghost var lines: seq<Line>
    ghost var entries: set<KsymEntry>

    /** Both maps hold what was read, and an entry found through either of them is marked exactly when
        its name occurs more than once. */
    ghost predicate Valid()
      reads this, entries
    {
      && (forall n {:trigger n2s[n]} :: n in n2s ==> NamedEntry(n))
      && (forall n {:trigger n in n2s} :: n in n2s <==> AddrsOf(lines, n) != [])
      && (forall a {:trigger a2s[a]} :: a in a2s ==> AddressedEntry(a))
      && (forall a {:trigger a in a2s} :: a in a2s <==> NameAt(lines, a).Some?)
    }

    ghost predicate NamedEntry(n: string)
      requires n in n2s
      reads this, entries
    {
      var e := n2s[n];
      && e in entries && e.name == n && AddrsOf(lines, n) == [e.addr] + e.extra
      && (e.duped <==> Repeated(lines, n))
    }

    ghost predicate AddressedEntry(a: u64)
      requires a in a2s
      reads this, entries
    {
      var e := a2s[a];
      && e in entries && e.addr == a && NameAt(lines, a) == Some(e.name) && e.name in n2s
      && (e == n2s[e.name] || e.duped)
      && (e.duped <==> Repeated(lines, e.name))
    }

    constructor ()
      ensures Valid() && lines == [] && entries == {}
    {
      a2s, n2s, addrs, lines, entries := map[], map[], [], [], {};
    }

    /** One symbol line: a repeated name is marked on its first entry, which both maps may share, and on
        the new one. */
    method AddLine(addr: u64, name: string)
      requires Valid()
      modifies this, entries
      ensures Valid() && lines == old(lines) + [Line(addr, name)] && fresh(entries - old(entries))
    {
      var entry := new KsymEntry(addr, name);
      if name in n2s {
        assert NamedEntry(name);
        Repeat(entry, n2s[name]);
      } else {
        First(entry);
      }
    }

    method Repeat(entry: KsymEntry, sym: KsymEntry)
      requires Valid() && entry !in entries && entry.extra == [] && !entry.duped
      requires entry.name in n2s && n2s[entry.name] == sym
      modifies this`a2s, this`lines, this`entries, entry, sym
      ensures Valid() && lines == old(lines) + [Line(entry.addr, entry.name)] && entries == old(entries) + {entry}
    {
      hide AddrsOf, NameAt;
      OneMoreLine(lines, Line(entry.addr, entry.name));
      ghost var a2s0 := a2s;
      sym.extra := sym.extra + [entry.addr];
      sym.duped := true;
      entry.duped := true;
      a2s := a2s[entry.addr := entry];
      lines := lines + [Line(entry.addr, entry.name)];
      entries := entries + {entry};
      forall n | n in n2s
        ensures NamedEntry(n)
      {
        assert old(NamedEntry(n));
        assert n != entry.name ==> n2s[n] != sym;
      }
      forall a | a in a2s
        ensures AddressedEntry(a)
      {
        if a != entry.addr {
          assert old(AddressedEntry(a)) && a2s[a] == a2s0[a];
        } else {
          assert NamedEntry(entry.name);
        }
      }
    }

    method First(entry: KsymEntry)
      requires Valid() && entry !in entries && entry.extra == [] && !entry.duped && entry.name !in n2s
      modifies this`a2s, this`n2s, this`lines, this`entries
      ensures Valid() && lines == old(lines) + [Line(entry.addr, entry.name)] && entries == old(entries) + {entry}
    {
      hide AddrsOf, NameAt;
      OneMoreLine(lines, Line(entry.addr, entry.name));
      ghost var a2s0, n2s0 := a2s, n2s;
      n2s := n2s[entry.name := entry];
      a2s := a2s[entry.addr := entry];
      lines := lines + [Line(entry.addr, entry.name)];
      entries := entries + {entry};
      forall n | n in n2s
        ensures NamedEntry(n)
      {
        if n != entry.name {
          assert old(NamedEntry(n)) && n2s[n] == n2s0[n];
        }
      }
      forall a | a in a2s
        ensures AddressedEntry(a)
      {
        if a != entry.addr {
          assert old(AddressedEntry(a)) && a2s[a] == a2s0[a];
        }
      }
    }

    /** Whichever map leads to an entry, it is marked exactly when its name occurs more than once, and
        the entry of a name lists all the places of the name. */
    lemma {:induction false} DupedIff(name: string, addr: u64)
      requires Valid()
      ensures name in n2s ==> (n2s[name].duped <==> Repeated(lines, name))
      ensures name in n2s ==> AddrsOf(lines, name) == [n2s[name].addr] + n2s[name].extra
      ensures addr in a2s ==> (a2s[addr].duped <==> Repeated(lines, a2s[addr].name)) && addr in AddrsOf(lines, a2s[addr].name)
    {
      if addr in a2s {
        assert AddressedEntry(addr);
        NameAtOccurs(lines, addr);
      }
      if name in n2s {
        assert NamedEntry(name);
      }
    }

    // Search -------------------------------------------------------------------------------------

    /** The sorted keys of the address map; the source gets them from its library. */
    ghost predicate Indexed()
      reads this
    {
      && addrs != []
      && (forall i, j :: 0 <= i < j < |addrs| ==> addrs[i] < addrs[j])
      && (forall a :: a in addrs <==> a in a2s)
    }

    /** The greatest index whose address is not above `addr`. */
    predicate Covers(i: nat, addr: u64)
      reads this
    {
      i < |addrs| && addrs[i] <= addr && (i + 1 < |addrs| ==> addr < addrs[i + 1])
    }

    method Index(addr: u64) returns (i: nat, ok: bool)
      requires Indexed()
      ensures ok <==> addrs[0] <= addr <= addrs[|addrs| - 1]
      ensures ok ==> Covers(i, addr) && forall k :: 0 <= k < |addrs| ==> (addrs[k] <= addr <==> k <= i)
    {
      if addr < addrs[0] || addr > addrs[|addrs| - 1] {
        return 0, false;
      }
      var total := |addrs|;
      var lo, j := 0, total;
      while lo < j
        invariant 0 <= lo <= j <= total
        invariant forall k :: 0 <= k < lo ==> addrs[k] <= addr
        invariant forall k :: j <= k < total ==> addr < addrs[k]
      {
        var h := (lo + j) / 2;
        if addrs[h] <= addr {
          if h + 1 < total && addrs[h + 1] > addr {
            return h, true;
          }
          lo := h + 1;
        } else {
          j := h;
        }
      }
      return lo - 1, true;
    }

    /** The symbol that covers an address. */
    method Find(addr: u64) returns (e: Option<KsymEntry>)
      requires Valid() && Indexed()
      ensures e.Some? <==> addrs[0] <= addr <= addrs[|addrs| - 1]
      ensures e.Some? ==>
                && e.value.addr in addrs && a2s[e.value.addr] == e.value
                && e.value.addr <= addr && forall a :: a in addrs && a <= addr ==> a <= e.value.addr
      ensures e.Some? ==> (e.value.duped <==> Repeated(lines, e.value.name))
    {
      hide Valid;
      var i, ok := Index(addr);
      if !ok {
        return None;
      }
      EntryAt(i);
      return Some(a2s[addrs[i]]);
    }

    lemma {:induction false} EntryAt(i: nat)
      requires Valid() && Indexed() && i < |addrs|
      ensures addrs[i] in a2s && a2s[addrs[i]].addr == addrs[i]
      ensures a2s[addrs[i]].duped <==> Repeated(lines, a2s[addrs[i]].name)
    {
      assert addrs[i] in addrs;
      assert AddressedEntry(addrs[i]);
    }

    /** The symbol after the one that covers an address. */
    method Next(addr: u64) returns (e: Option<KsymEntry>)
      requires Valid() && Indexed()
      ensures e.Some? <==> addrs[0] <= addr < addrs[|addrs| - 1]
      ensures e.Some? ==>
                && e.value.addr in addrs && a2s[e.value.addr] == e.value
                && addr < e.value.addr && forall a :: a in addrs && addr < a ==> e.value.addr <= a
    {
      hide Valid;
      var i, ok := Index(addr);
      if !ok {
        return None;
      }
      i := i + 1;
      if i >= |addrs| {
        return None;
      }
      EntryAt(i);
      return Some(a2s[addrs[i]]);
    }
  }
}
