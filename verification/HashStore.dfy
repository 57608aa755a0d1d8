/** The hash-chained database store (unix_source/db.lock.fine).

The index file holds a free-list pointer, one pointer per hash chain, and index
records at their byte offsets; the data file is a byte sequence in which every
record owns an extent.  An index record overwrites whatever its bytes cover, so
that no record is ever damaged is something to prove. */
module HashFiles {
  import opened Common

  /** The limits and field sizes of db.h, and the hash function. */
  datatype Config = Config(ptrSize: nat, idxlenSize: nat, idxlenMin: nat, idxlenMax: nat,
                           datlenMin: nat, datlenMax: nat, ptrMax: nat, nhash: nat, hash: string -> nat) {
    predicate Ok() { nhash > 0 }

    /** The chain a key belongs to. */
    function Chain(key: string): (i: nat)
      requires Ok()
      ensures i < nhash
    {
      hash(key) % nhash
    }

    /** Where the first index record goes: after the free-list pointer, the hash
        table and a newline. */
    function Base(): nat { (nhash + 1) * ptrSize + 1 }
  }

  /** A record of the index file; `ptr` is the offset of the next one, 0 for none. */
  datatype IdxRec = IdxRec(ptr: nat, key: string, datoff: nat, datlen: nat)

  datatype Disk = Disk(heads: seq<nat>, free: nat, idx: map<nat, IdxRec>, idxEnd: nat, dat: string)

  /** The places that hold a chain pointer. */
  datatype PtrLoc = FreeHead | Head(chain: nat) | InRec(off: nat)

  function Digits(n: nat): (d: nat)
    ensures d > 0
  {
    if n < 10 then 1 else 1 + Digits(n / 10)
  }

  /** Length of "key SEP datoff SEP datlen newline". */
  function TextLen(keylen: nat, datoff: nat, datlen: nat): nat {
    keylen + 1 + Digits(datoff) + 1 + Digits(datlen) + 1
  }

  function Pow10(k: nat): nat { if k == 0 then 1 else 10 * Pow10(k - 1) }

  /** d digits reach from 10^(d-1) up to 10^d. */
  lemma {:induction false} DigitsIff(n: nat, d: nat)
    requires d > 0
    ensures Digits(n) == d <==> (d == 1 || Pow10(d - 1) <= n) && n < Pow10(d)
  {
    if n >= 10 && d > 1 {
      DigitsIff(n / 10, d - 1);
    } else if n >= 10 {
      assert Pow10(1) == 10;
    } else if d > 1 {
      PowAtLeast(d - 1);
    }
  }

  lemma {:induction false} PowAtLeast(k: nat)
    requires k > 0
    ensures Pow10(k) >= 10
  {
    if k > 1 { PowAtLeast(k - 1); }
  }

  function Decimal(n: nat): string {
    if n < 10 then [(('0' as int) + n) as char] else Decimal(n / 10) + [(('0' as int) + n % 10) as char]
  }

  /** The number that decimal digits stand for. */
  function NumberOf(s: string): int {
    if s == "" then 0 else 10 * NumberOf(s[..|s| - 1]) + (s[|s| - 1] as int - '0' as int)
  }

  lemma {:induction false} DecimalIs(n: nat)
    ensures NumberOf(Decimal(n)) == n && |Decimal(n)| == Digits(n)
  {
    var s := Decimal(n);
    if n < 10 {
      assert s[..0] == "";
    } else {
      DecimalIs(n / 10);
      assert s[..|s| - 1] == Decimal(n / 10);
    }
  }

  /** "key SEP datoff SEP datlen newline" */
  function IndexText(key: string, datoff: nat, datlen: nat, sep: char): string {
    key + [sep] + Decimal(datoff) + [sep] + Decimal(datlen) + "\n"
  }

  lemma TextLenIs(key: string, datoff: nat, datlen: nat, sep: char)
    ensures |IndexText(key, datoff, datlen, sep)| == TextLen(|key|, datoff, datlen)
  {
    DecimalIs(datoff);
    DecimalIs(datlen);
  }

  function RecLen(r: IdxRec): nat { TextLen(|r.key|, r.datoff, r.datlen) }

  function Size(c: Config, r: IdxRec): nat { c.ptrSize + c.idxlenSize + RecLen(r) }

  predicate Apart(a: nat, n: nat, b: nat, m: nat) { a + n <= b || b + m <= a }

  function Max(a: nat, b: nat): nat { if a < b then b else a }

  /** write() of `bytes` at `off` of the data file. */
  function PutDat(d: Disk, off: nat, bytes: string): Disk
    requires off <= |d.dat|
  {
    d.(dat := d.dat[..off] + bytes + if off + |bytes| < |d.dat| then d.dat[off + |bytes|..] else "")
  }

  /** writev() of an index record: any other record it covers is gone. */
  function PutIdx(c: Config, d: Disk, off: nat, r: IdxRec): Disk {
    d.(idx := (map o | o in d.idx && Apart(o, Size(c, d.idx[o]), off, Size(c, r)) :: d.idx[o])[off := r],
       idxEnd := Max(d.idxEnd, off + Size(c, r)))
  }

  predicate HasPtr(d: Disk, loc: PtrLoc) {
    match loc
    case FreeHead => true
    case Head(i) => i < |d.heads|
    case InRec(o) => o in d.idx
  }

  function ReadPtr(d: Disk, loc: PtrLoc): nat
    requires HasPtr(d, loc)
  {
    match loc
    case FreeHead => d.free
    case Head(i) => d.heads[i]
    case InRec(o) => d.idx[o].ptr
  }

  function PutPtr(d: Disk, loc: PtrLoc, v: nat): Disk
    requires HasPtr(d, loc)
  {
    match loc
    case FreeHead => d.(free := v)
    case Head(i) => d.(heads := d.heads[i := v])
    case InRec(o) => d.(idx := d.idx[o := d.idx[o].(ptr := v)])
  }

  // ---------------------------------------------------------------- well-formed files

  /** Following the pointers from `head` visits exactly xs and then ends. */
  predicate Linked(d: Disk, head: nat, xs: seq<nat>) {
    && head == (if xs == [] then 0 else xs[0])
    && (forall i {:trigger xs[i] in d.idx} {:trigger d.idx[xs[i]]} :: 0 <= i < |xs| ==>
          xs[i] in d.idx && d.idx[xs[i]].ptr == if i + 1 < |xs| then xs[i + 1] else 0)
  }

  predicate NoDup(xs: seq<nat>) { forall a, b :: 0 <= a < b < |xs| ==> xs[a] != xs[b] }

  predicate Disjoint(xs: seq<nat>, ys: seq<nat>) { forall x <- xs :: x !in ys }

  predicate Below(xs: seq<nat>, max: nat) { forall x <- xs :: x <= max }

  predicate InFiles(c: Config, d: Disk, o: nat)
    requires o in d.idx
  {
    && c.Base() <= o && o + Size(c, d.idx[o]) <= d.idxEnd
    && 1 <= d.idx[o].datlen && d.idx[o].datoff + d.idx[o].datlen <= |d.dat|
    && c.idxlenMin <= RecLen(d.idx[o]) <= c.idxlenMax
  }

  predicate RecsApart(c: Config, d: Disk, o: nat, p: nat)
    requires o in d.idx && p in d.idx
  {
    && Apart(o, Size(c, d.idx[o]), p, Size(c, d.idx[p]))
    && Apart(d.idx[o].datoff, d.idx[o].datlen, d.idx[p].datoff, d.idx[p].datlen)
  }

  /** Records lie in the files, do not overlap, and were acceptable when written. */
  predicate Extents(c: Config, d: Disk) {
    && c.Base() <= d.idxEnd
    && (forall o :: o in d.idx ==> InFiles(c, d, o))
    && (forall o, p :: o in d.idx && p in d.idx && o != p ==> RecsApart(c, d, o, p))
  }

  /** The chains and the free list, which the files only imply. */
  datatype Layout = Layout(chains: seq<seq<nat>>, free: seq<nat>)

  /** No record is on a list twice or on two lists. */
  predicate Separate(l: Layout) {
    && NoDup(l.free)
    && (forall i :: 0 <= i < |l.chains| ==> NoDup(l.chains[i]) && Disjoint(l.chains[i], l.free))
    && (forall i, j :: 0 <= i < j < |l.chains| ==> Disjoint(l.chains[i], l.chains[j]))
  }

  /** Chain i: a linked list of records whose distinct keys hash to i. */
  predicate ChainOk(c: Config, d: Disk, i: nat, xs: seq<nat>)
    requires c.Ok() && i < |d.heads|
  {
    && Linked(d, d.heads[i], xs)
    && Below(xs, c.ptrMax)
    && (forall a :: 0 <= a < |xs| ==> c.Chain(d.idx[xs[a]].key) == i)
    && (forall a, b :: 0 <= a < b < |xs| ==> d.idx[xs[a]].key != d.idx[xs[b]].key)
  }

  predicate Lists(c: Config, d: Disk, l: Layout)
    requires c.Ok()
  {
    && |d.heads| == |l.chains| == c.nhash
    && Separate(l)
    && Linked(d, d.free, l.free) && Below(l.free, c.ptrMax)
    && (forall i :: 0 <= i < |l.chains| ==> ChainOk(c, d, i, l.chains[i]))
  }

  /** Every chain and the free list are acyclic, pairwise disjoint lists of
      undamaged records, and each chain holds its keys once. */
  predicate Wf(c: Config, d: Disk, l: Layout)
    requires c.Ok()
  {
    Extents(c, d) && Lists(c, d, l)
  }

  // ---------------------------------------------------------------- the map the files stand for

  /** The stored bytes of a record, without the newline that ends them. */
  function DataOf(d: Disk, o: nat): string {
    if o in d.idx && 1 <= d.idx[o].datlen && d.idx[o].datoff + d.idx[o].datlen <= |d.dat|
    then d.dat[d.idx[o].datoff..d.idx[o].datoff + d.idx[o].datlen - 1]
    else ""
  }

  function Lookup(d: Disk, xs: seq<nat>, key: string): Option<string> {
    if xs == [] then None
    else if xs[0] in d.idx && d.idx[xs[0]].key == key then Some(DataOf(d, xs[0]))
    else Lookup(d, xs[1..], key)
  }

  /** What the database maps a key to. */
  function Get(c: Config, d: Disk, l: Layout, key: string): Option<string>
    requires c.Ok() && |l.chains| == c.nhash
  {
    Lookup(d, l.chains[c.Chain(key)], key)
  }

  ghost predicate SameMap(c: Config, d: Disk, l: Layout, e: Disk, m: Layout)
    requires c.Ok() && |l.chains| == |m.chains| == c.nhash
  {
    forall key :: Get(c, e, m, key) == Get(c, d, l, key)
  }

  /** (e, m) maps `key` to v and every other key as (d, l) does. */
  ghost predicate Updated(c: Config, d: Disk, l: Layout, e: Disk, m: Layout, key: string, v: Option<string>)
    requires c.Ok() && |l.chains| == |m.chains| == c.nhash
  {
    forall k :: Get(c, e, m, k) == if k == key then v else Get(c, d, l, k)
  }

  /** Same key and data. */
  predicate SameRec(d: Disk, e: Disk, o: nat) {
    o in d.idx && o in e.idx && d.idx[o].key == e.idx[o].key && DataOf(d, o) == DataOf(e, o)
  }

  lemma {:induction false} LookupFrame(d: Disk, e: Disk, xs: seq<nat>, key: string)
    requires forall a :: 0 <= a < |xs| ==> SameRec(d, e, xs[a])
    ensures Lookup(d, xs, key) == Lookup(e, xs, key)
  {
    if xs != [] {
      assert SameRec(d, e, xs[0]);
      LookupFrame(d, e, xs[1..], key);
    }
  }

  /** With distinct keys, a lookup finds a record exactly by its key. */
  lemma {:induction false} LookupFinds(d: Disk, xs: seq<nat>, key: string)
    requires forall a :: 0 <= a < |xs| ==> xs[a] in d.idx
    requires forall a, b :: 0 <= a < b < |xs| ==> d.idx[xs[a]].key != d.idx[xs[b]].key
    ensures Lookup(d, xs, key).None? <==> forall a :: 0 <= a < |xs| ==> d.idx[xs[a]].key != key
    ensures forall a :: 0 <= a < |xs| && d.idx[xs[a]].key == key ==> Lookup(d, xs, key) == Some(DataOf(d, xs[a]))
  {
    if xs != [] {
      LookupFinds(d, xs[1..], key);
      assert forall a :: 1 <= a < |xs| ==> xs[a] == xs[1..][a - 1];
    }
  }

  /** What a scan of a chain that stopped at position a says about the key. */
  lemma GetScanned(c: Config, d: Disk, l: Layout, key: string, a: nat)
    requires c.Ok() && |l.chains| == c.nhash && Wf(c, d, l) && a <= |l.chains[c.Chain(key)]|
    requires var xs := l.chains[c.Chain(key)];
             && (forall b :: 0 <= b < a ==> xs[b] in d.idx && d.idx[xs[b]].key != key)
             && (a < |xs| ==> xs[a] in d.idx && d.idx[xs[a]].key == key)
    ensures var xs := l.chains[c.Chain(key)];
            && (Get(c, d, l, key).Some? <==> a < |xs|)
            && (a < |xs| ==> Get(c, d, l, key) == Some(DataOf(d, xs[a])) && |DataOf(d, xs[a])| + 1 == d.idx[xs[a]].datlen)
  {
    var xs := l.chains[c.Chain(key)];
    assert ChainOk(c, d, c.Chain(key), xs);
    LookupFinds(d, xs, key);
    if a < |xs| { assert InFiles(c, d, xs[a]); }
  }

  // ---------------------------------------------------------------- frames

  predicate Listed(l: Layout, o: nat) {
    o in l.free || exists i :: 0 <= i < |l.chains| && o in l.chains[i]
  }

  /** In the index file but on no list. */
  predicate Loose(d: Disk, l: Layout, o: nat) { o in d.idx && !Listed(l, o) }

  lemma ChainFrame(c: Config, d: Disk, e: Disk, i: nat, xs: seq<nat>)
    requires c.Ok() && i < |d.heads| == |e.heads| && ChainOk(c, d, i, xs) && d.heads[i] == e.heads[i]
    requires forall x <- xs :: x in d.idx && x in e.idx && d.idx[x].key == e.idx[x].key && d.idx[x].ptr == e.idx[x].ptr
    ensures ChainOk(c, e, i, xs)
  {
  }

  lemma LinkedFrame(d: Disk, e: Disk, head: nat, xs: seq<nat>)
    requires Linked(d, head, xs)
    requires forall x <- xs :: x in d.idx && x in e.idx && d.idx[x].ptr == e.idx[x].ptr
    ensures Linked(e, head, xs)
  {
  }

  /** A change that leaves the heads and the listed records' keys and pointers. */
  lemma ListsFrame(c: Config, d: Disk, e: Disk, l: Layout)
    requires c.Ok() && Lists(c, d, l) && e.heads == d.heads && e.free == d.free
    requires forall o :: Listed(l, o) && o in d.idx ==> o in e.idx && d.idx[o].key == e.idx[o].key && d.idx[o].ptr == e.idx[o].ptr
    ensures Lists(c, e, l)
  {
    forall i | 0 <= i < |l.chains| ensures ChainOk(c, e, i, l.chains[i]) {
      assert ChainOk(c, d, i, l.chains[i]);
      forall x <- l.chains[i] ensures x in d.idx && Listed(l, x) {}
      ChainFrame(c, d, e, i, l.chains[i]);
    }
    forall x <- l.free ensures x in d.idx && Listed(l, x) {}
    LinkedFrame(d, e, d.free, l.free);
  }

  /** A change that leaves the listed records' keys and data. */
  lemma MapFrame(c: Config, d: Disk, e: Disk, l: Layout)
    requires c.Ok() && Lists(c, d, l)
    requires forall o :: Listed(l, o) && o in d.idx ==> SameRec(d, e, o)
    ensures SameMap(c, d, l, e, l)
  {
    forall key ensures Get(c, e, l, key) == Get(c, d, l, key) {
      var i := c.Chain(key);
      assert ChainOk(c, d, i, l.chains[i]);
      forall a | 0 <= a < |l.chains[i]| ensures SameRec(d, e, l.chains[i][a]) { assert Listed(l, l.chains[i][a]); }
      LookupFrame(d, e, l.chains[i], key);
    }
  }

  lemma SameRefl(c: Config, d: Disk, l: Layout)
    requires c.Ok() && |l.chains| == c.nhash
    ensures SameMap(c, d, l, d, l)
  {
  }

  lemma SameAt(c: Config, d: Disk, l: Layout, e: Disk, m: Layout, key: string)
    requires c.Ok() && |l.chains| == |m.chains| == c.nhash && SameMap(c, d, l, e, m)
    ensures Get(c, e, m, key) == Get(c, d, l, key)
  {
  }

  lemma UpdatedAt(c: Config, d: Disk, l: Layout, e: Disk, m: Layout, key: string, v: Option<string>)
    requires c.Ok() && |l.chains| == |m.chains| == c.nhash && Updated(c, d, l, e, m, key, v)
    ensures Get(c, e, m, key) == v
  {
  }

  lemma UpdatedAfterSame(c: Config, d0: Disk, l0: Layout, d1: Disk, l1: Layout, d2: Disk, l2: Layout, key: string, v: Option<string>)
    requires c.Ok() && |l0.chains| == |l1.chains| == |l2.chains| == c.nhash
    requires SameMap(c, d0, l0, d1, l1) && Updated(c, d1, l1, d2, l2, key, v)
    ensures Updated(c, d0, l0, d2, l2, key, v)
  {
    forall k ensures Get(c, d2, l2, k) == if k == key then v else Get(c, d0, l0, k) { assert Get(c, d1, l1, k) == Get(c, d0, l0, k); }
  }

  lemma UpdatedTwice(c: Config, d0: Disk, l0: Layout, d1: Disk, l1: Layout, d2: Disk, l2: Layout, key: string, v: Option<string>)
    requires c.Ok() && |l0.chains| == |l1.chains| == |l2.chains| == c.nhash
    requires Updated(c, d0, l0, d1, l1, key, None)
    requires Updated(c, d1, l1, d2, l2, key, v) || (v.None? && SameMap(c, d1, l1, d2, l2))
    ensures Updated(c, d0, l0, d2, l2, key, v)
  {
    forall k ensures Get(c, d2, l2, k) == if k == key then v else Get(c, d0, l0, k) {
      assert Get(c, d1, l1, k) == if k == key then None else Get(c, d0, l0, k);
    }
  }
  lemma SameTrans(c: Config, d0: Disk, l0: Layout, d1: Disk, l1: Layout, d2: Disk, l2: Layout)
    requires c.Ok() && |l0.chains| == |l1.chains| == |l2.chains| == c.nhash
    requires SameMap(c, d0, l0, d1, l1) && SameMap(c, d1, l1, d2, l2)
    ensures SameMap(c, d0, l0, d2, l2)
  {
    forall k ensures Get(c, d2, l2, k) == Get(c, d0, l0, k) { assert Get(c, d1, l1, k) == Get(c, d0, l0, k); }
  }

  // ---------------------------------------------------------------- data writes

  predicate SameIndex(d: Disk, e: Disk) {
    d.idx == e.idx && d.heads == e.heads && d.free == e.free && d.idxEnd == e.idxEnd
  }

  lemma SameIndexWf(c: Config, d: Disk, e: Disk, l: Layout)
    requires c.Ok() && Wf(c, d, l) && SameIndex(d, e) && |e.dat| >= |d.dat|
    ensures Wf(c, e, l)
  {
    ListsFrame(c, d, e, l);
    forall o | o in e.idx ensures InFiles(c, e, o) { assert InFiles(c, d, o); }
    forall o, p | o in e.idx && p in e.idx && o != p ensures RecsApart(c, e, o, p) { assert RecsApart(c, d, o, p); }
  }

  lemma AppendData(c: Config, d: Disk, l: Layout, bytes: string)
    requires c.Ok() && Wf(c, d, l)
    ensures var e := PutDat(d, |d.dat|, bytes);
            SameIndex(d, e) && e.dat == d.dat + bytes && Wf(c, e, l) && SameMap(c, d, l, e, l)
  {
    var e := PutDat(d, |d.dat|, bytes);
    assert e.dat == d.dat + bytes;
    SameIndexWf(c, d, e, l);
    forall o | o in d.idx ensures SameRec(d, e, o) {
      assert InFiles(c, d, o);
      var lo, hi := d.idx[o].datoff, d.idx[o].datoff + d.idx[o].datlen - 1;
      assert e.dat[lo..hi] == d.dat[lo..hi];
    }
    MapFrame(c, d, e, l);
  }

  /** Overwriting one record's data with as many bytes touches no other record. */
  lemma OverwriteData(c: Config, d: Disk, l: Layout, o: nat, data: string)
    requires c.Ok() && Wf(c, d, l) && o in d.idx && |data| + 1 == d.idx[o].datlen
    ensures d.idx[o].datoff <= |d.dat|
    ensures var e := PutDat(d, d.idx[o].datoff, data + "\n");
            SameIndex(d, e) && |e.dat| == |d.dat| && Wf(c, e, l) && DataOf(e, o) == data
            && forall p :: p in d.idx && p != o ==> SameRec(d, e, p)
  {
    assert InFiles(c, d, o);
    var off := d.idx[o].datoff;
    var e := PutDat(d, off, data + "\n");
    assert |e.dat| == |d.dat|;
    assert e.dat[off..off + |data|] == data;
    SameIndexWf(c, d, e, l);
    hide Lists;
    forall p | p in d.idx && p != o ensures SameRec(d, e, p) {
      assert InFiles(c, d, p) && RecsApart(c, d, o, p);
      OtherExtent(d.dat, off, data + "\n", e.dat, d.idx[p].datoff, d.idx[p].datoff + d.idx[p].datlen - 1);
    }
  }

  lemma OtherExtent(s: string, off: nat, bytes: string, t: string, lo: nat, hi: nat)
    requires off + |bytes| <= |s| && t == s[..off] + bytes + s[off + |bytes|..]
    requires lo <= hi <= |s| && (hi <= off || off + |bytes| <= lo)
    ensures |t| == |s| && t[lo..hi] == s[lo..hi]
  {
  }

  // ---------------------------------------------------------------- index writes

  /** A new index record for the last bytes of the data file. */
  lemma AppendIndex(c: Config, d: Disk, l: Layout, r: IdxRec)
    requires c.Ok() && Wf(c, d, l)
    requires 1 <= r.datlen && r.datoff + r.datlen == |d.dat|
    requires c.idxlenMin <= RecLen(r) <= c.idxlenMax
    requires forall o :: o in d.idx ==> d.idx[o].datoff + d.idx[o].datlen <= r.datoff
    ensures var e := PutIdx(c, d, d.idxEnd, r);
            d.idxEnd !in d.idx && e == d.(idx := d.idx[d.idxEnd := r], idxEnd := e.idxEnd)
            && Wf(c, e, l) && Loose(e, l, d.idxEnd) && SameMap(c, d, l, e, l)
  {
    var off := d.idxEnd;
    var e := PutIdx(c, d, off, r);
    forall o | o in d.idx ensures o + Size(c, d.idx[o]) <= off { assert InFiles(c, d, o); }
    AppendsOne(c, d, off, r);
    hide Extents, PutIdx, Size, RecLen, Lists, DataOf;
    AppendExtents(c, d, e, r);
    NotListed(c, d, l, off);
    GrewSame(d, e, off, r);
    ListsFrame(c, d, e, l);
    MapFrame(c, d, e, l);
  }

  lemma GrewSame(d: Disk, e: Disk, off: nat, r: IdxRec)
    requires off !in d.idx && e.idx == d.idx[off := r] && e.dat == d.dat
    ensures forall o :: o in d.idx ==> SameRec(d, e, o) && d.idx[o].ptr == e.idx[o].ptr
  {
  }

  /** Past all records nothing is covered. */
  lemma AppendsOne(c: Config, d: Disk, off: nat, r: IdxRec)
    requires d.idxEnd == off && forall o :: o in d.idx ==> o + Size(c, d.idx[o]) <= off
    ensures off !in d.idx && PutIdx(c, d, off, r) == d.(idx := d.idx[off := r], idxEnd := off + Size(c, r))
  {
    assert PutIdx(c, d, off, r).idx == d.idx[off := r];
  }

  lemma AppendExtents(c: Config, d: Disk, e: Disk, r: IdxRec)
    requires Extents(c, d) && 1 <= r.datlen && r.datoff + r.datlen == |d.dat|
    requires c.idxlenMin <= RecLen(r) <= c.idxlenMax
    requires forall o :: o in d.idx ==> d.idx[o].datoff + d.idx[o].datlen <= r.datoff
    requires e == d.(idx := d.idx[d.idxEnd := r], idxEnd := d.idxEnd + Size(c, r))
    ensures Extents(c, e)
  {
    var off := d.idxEnd;
    hide Size, RecLen;
    forall o | o in e.idx ensures InFiles(c, e, o) { if o != off { assert InFiles(c, d, o); } }
    forall o, p | o in e.idx && p in e.idx && o != p ensures RecsApart(c, e, o, p) {
      if o != off && p != off { assert RecsApart(c, d, o, p); }
      else { var q := if o == off then p else o; assert InFiles(c, d, q); }
    }
  }

  lemma NotListed(c: Config, d: Disk, l: Layout, o: nat)
    requires c.Ok() && Lists(c, d, l) && o !in d.idx
    ensures !Listed(l, o)
  {
    forall i | 0 <= i < |l.chains| ensures o !in l.chains[i] { assert ChainOk(c, d, i, l.chains[i]); }
  }

  /** A record on no list may be rewritten with one of the same size and extent. */
  lemma RewriteIndex(c: Config, d: Disk, l: Layout, o: nat, r: IdxRec)
    requires c.Ok() && Wf(c, d, l) && Loose(d, l, o)
    requires |r.key| == |d.idx[o].key| && r.datoff == d.idx[o].datoff && r.datlen == d.idx[o].datlen
    ensures var e := PutIdx(c, d, o, r);
            e == d.(idx := d.idx[o := r]) && Wf(c, e, l) && Loose(e, l, o) && SameMap(c, d, l, e, l)
  {
    var e := PutIdx(c, d, o, r);
    assert InFiles(c, d, o);
    forall p | p in d.idx && p != o ensures Apart(p, Size(c, d.idx[p]), o, Size(c, r)) { assert RecsApart(c, d, o, p); }
    assert e.idx == d.idx[o := r];
    RewriteExtents(c, d, e, o, r);
    hide Extents;
    ListsFrame(c, d, e, l);
    MapFrame(c, d, e, l);
  }

  lemma RewriteExtents(c: Config, d: Disk, e: Disk, o: nat, r: IdxRec)
    requires Extents(c, d) && o in d.idx && e == d.(idx := d.idx[o := r])
    requires |r.key| == |d.idx[o].key| && r.datoff == d.idx[o].datoff && r.datlen == d.idx[o].datlen
    ensures Extents(c, e)
  {
    assert RecLen(r) == RecLen(d.idx[o]) && Size(c, r) == Size(c, d.idx[o]);
    hide RecLen, Size;
    forall p | p in e.idx ensures InFiles(c, e, p) { assert InFiles(c, d, p); }
    forall p, q | p in e.idx && q in e.idx && p != q ensures RecsApart(c, e, p, q) { assert RecsApart(c, d, p, q); }
  }

  // ---------------------------------------------------------------- pointer writes

  /** A pointer write changes no size, key, extent or data. */
  lemma PutPtrExtents(c: Config, d: Disk, loc: PtrLoc, v: nat)
    requires Extents(c, d) && HasPtr(d, loc)
    ensures var e := PutPtr(d, loc, v);
            Extents(c, e) && e.idx.Keys == d.idx.Keys && (forall o :: o in d.idx ==> SameRec(d, e, o))
  {
    var e := PutPtr(d, loc, v);
    assert e.idx.Keys == d.idx.Keys;
    forall p | p in e.idx ensures InFiles(c, e, p) { assert InFiles(c, d, p); }
    forall p, q | p in e.idx && q in e.idx && p != q ensures RecsApart(c, e, p, q) { assert RecsApart(c, d, p, q); }
  }

  function Published(l: Layout, i: nat, o: nat): Layout
    requires i < |l.chains|
  {
    l.(chains := l.chains[i := [o] + l.chains[i]])
  }

  lemma PublishedSeparate(l: Layout, i: nat, o: nat)
    requires Separate(l) && i < |l.chains| && !Listed(l, o)
    ensures Separate(Published(l, i, o))
  {
    var m, xs := Published(l, i, o), l.chains[i];
    assert NoDup(xs) && NoDup([o] + xs);
    assert Disjoint(xs, l.free) && Disjoint([o] + xs, l.free);
    forall j, k | 0 <= j < k < |m.chains| ensures Disjoint(m.chains[j], m.chains[k]) {
      assert Disjoint(l.chains[j], l.chains[k]);
    }
  }

  /** Storing the chain pointer is the step that adds the key. */
  lemma Publish(c: Config, d: Disk, l: Layout, o: nat)
    requires c.Ok() && Wf(c, d, l) && Loose(d, l, o) && o <= c.ptrMax
    requires var i := c.Chain(d.idx[o].key); d.idx[o].ptr == d.heads[i]
    requires Get(c, d, l, d.idx[o].key).None?
    ensures var i := c.Chain(d.idx[o].key);
            var e, m := PutPtr(d, Head(i), o), Published(l, i, o);
            Wf(c, e, m) && Updated(c, d, l, e, m, d.idx[o].key, Some(DataOf(d, o)))
  {
    var i := c.Chain(d.idx[o].key);
    var xs := l.chains[i];
    var e, m := PutPtr(d, Head(i), o), Published(l, i, o);
    PutPtrExtents(c, d, Head(i), o);
    PublishedSeparate(l, i, o);
    assert ChainOk(c, d, i, xs);
    LookupFinds(d, xs, d.idx[o].key);
    PublishedChainOk(c, d, e, i, xs, o);
    forall j | 0 <= j < |m.chains| ensures ChainOk(c, e, j, m.chains[j]) {
      if j != i {
        assert ChainOk(c, d, j, l.chains[j]);
        ChainFrame(c, d, e, j, l.chains[j]);
      }
    }
    LinkedFrame(d, e, d.free, l.free);
    MapFrame(c, d, e, l);
    PublishedMap(c, d, e, l, i, o);
  }

  lemma PublishedChainOk(c: Config, d: Disk, e: Disk, i: nat, xs: seq<nat>, o: nat)
    requires c.Ok() && i < |d.heads| && ChainOk(c, d, i, xs) && o in d.idx && o <= c.ptrMax
    requires e == PutPtr(d, Head(i), o) && d.idx[o].ptr == d.heads[i] && c.Chain(d.idx[o].key) == i
    requires forall a :: 0 <= a < |xs| ==> d.idx[xs[a]].key != d.idx[o].key
    ensures ChainOk(c, e, i, [o] + xs)
  {
    var ys := [o] + xs;
    assert e.idx == d.idx && forall a :: 0 < a < |ys| ==> ys[a] == xs[a - 1];
    assert Linked(e, e.heads[i], ys);
    hide Linked, Config.Chain;
  }

  lemma PublishedMap(c: Config, d: Disk, e: Disk, l: Layout, i: nat, o: nat)
    requires c.Ok() && |l.chains| == c.nhash && SameMap(c, d, l, e, l) && i < |l.chains|
    requires o in d.idx && c.Chain(d.idx[o].key) == i && SameRec(d, e, o)
    ensures Updated(c, d, l, e, Published(l, i, o), d.idx[o].key, Some(DataOf(d, o)))
  {
    var m, xs := Published(l, i, o), l.chains[i];
    assert ([o] + xs)[1..] == xs;
    forall k ensures Get(c, e, m, k) == if k == d.idx[o].key then Some(DataOf(d, o)) else Get(c, d, l, k) {
      assert Get(c, e, l, k) == Get(c, d, l, k);
    }
  }

  /** The append path, write by write: after the data and after the index record
      every list is intact and every key keeps its data; the pointer write then
      adds the new key and nothing else. */
  lemma PublicationSafety(c: Config, d: Disk, l: Layout, key: string, data: string)
    requires c.Ok() && Wf(c, d, l) && Get(c, d, l, key).None?
    requires d.idxEnd <= c.ptrMax && c.idxlenMin <= TextLen(|key|, |d.dat|, |data| + 1) <= c.idxlenMax
    ensures var i := c.Chain(key);
            var d1 := PutDat(d, |d.dat|, data + "\n");
            var d2 := PutIdx(c, d1, d.idxEnd, IdxRec(d.heads[i], key, |d.dat|, |data| + 1));
            var d3 := PutPtr(d2, Head(i), d.idxEnd);
            var m := Published(l, i, d.idxEnd);
            && Wf(c, d1, l) && SameMap(c, d, l, d1, l)
            && Wf(c, d2, l) && SameMap(c, d, l, d2, l)
            && Wf(c, d3, m) && Updated(c, d, l, d3, m, key, Some(data))
  {
    var i := c.Chain(key);
    var d1 := PutDat(d, |d.dat|, data + "\n");
    AppendData(c, d, l, data + "\n");
    var r := IdxRec(d.heads[i], key, |d.dat|, |data| + 1);
    forall o | o in d1.idx ensures d1.idx[o].datoff + d1.idx[o].datlen <= r.datoff { assert InFiles(c, d, o); }
    AppendIndex(c, d1, l, r);
    var d2 := PutIdx(c, d1, d.idxEnd, r);
    assert d2.dat[|d.dat|..|d.dat| + |data|] == data;
    Publish(c, d2, l, d.idxEnd);
  }

  /** The order matters: with the pointer stored before the index record there is
      no way to read the chains at all. */
  lemma PointerFirstBreaks(c: Config, d: Disk, l: Layout, i: nat, m: Layout)
    requires c.Ok() && Wf(c, d, l) && i < c.nhash
    ensures !Wf(c, PutPtr(d, Head(i), d.idxEnd), m)
  {
    var e := PutPtr(d, Head(i), d.idxEnd);
    assert d.idxEnd !in d.idx by { assert d.idxEnd in d.idx ==> InFiles(c, d, d.idxEnd); }
    assert |m.chains| == c.nhash ==> !ChainOk(c, e, i, m.chains[i]);
  }

  // ---------------------------------------------------------------- unlinking

  function Without(xs: seq<nat>, a: nat): seq<nat>
    requires a < |xs|
  {
    xs[..a] + xs[a + 1..]
  }

  lemma WithoutAt(xs: seq<nat>, a: nat)
    requires a < |xs|
    ensures |Without(xs, a)| == |xs| - 1
    ensures forall b :: 0 <= b < |xs| - 1 ==> Without(xs, a)[b] == if b < a then xs[b] else xs[b + 1]
    ensures NoDup(xs) ==> NoDup(Without(xs, a)) && xs[a] !in Without(xs, a)
    ensures forall x <- Without(xs, a) :: x in xs
  {
  }

  /** What following one pointer of a list gives. */
  lemma ListStep(c: Config, d: Disk, l: Layout, head: nat, xs: seq<nat>)
    requires c.Ok() && Wf(c, d, l) && Linked(d, head, xs) && Below(xs, c.ptrMax)
    ensures forall a :: 0 <= a < |xs| ==> xs[a] in d.idx && xs[a] != 0
    ensures forall a {:trigger d.idx[xs[a]]} :: 0 <= a < |xs| ==> d.idx[xs[a]].ptr <= c.ptrMax
  {
    forall a | 0 <= a < |xs| ensures xs[a] in d.idx && xs[a] != 0 && d.idx[xs[a]].ptr <= c.ptrMax {
      assert xs[a] in d.idx && InFiles(c, d, xs[a]);
      if a + 1 < |xs| { assert xs[a + 1] in xs; }
    }
  }

  /** The place of the pointer to xs[a]. */
  function PtrTo(head: PtrLoc, xs: seq<nat>, a: nat): PtrLoc
    requires a < |xs|
  {
    if a == 0 then head else InRec(xs[a - 1])
  }

  lemma Unlink(d: Disk, e: Disk, head: nat, head': nat, xs: seq<nat>, a: nat)
    requires Linked(d, head, xs) && NoDup(xs) && a < |xs|
    requires a == 0 ==> e.idx == d.idx && head' == d.idx[xs[0]].ptr
    requires a > 0 ==> head' == head && e.idx == d.idx[xs[a - 1] := d.idx[xs[a - 1]].(ptr := d.idx[xs[a]].ptr)]
    ensures Linked(e, head', Without(xs, a))
  {
    var ys := Without(xs, a);
    WithoutAt(xs, a);
    forall i | 0 <= i < |ys| ensures ys[i] in e.idx && e.idx[ys[i]].ptr == if i + 1 < |ys| then ys[i + 1] else 0 {
      assert xs[if i < a then i else i + 1] in d.idx;
    }
    if ys != [] { assert xs[0] in d.idx; }
  }

  /** Taking record a off the free list. */
  lemma UnlinkFree(c: Config, d: Disk, l: Layout, a: nat)
    requires c.Ok() && Wf(c, d, l) && a < |l.free|
    ensures HasPtr(d, PtrTo(FreeHead, l.free, a)) && l.free[a] in d.idx
    ensures var o := l.free[a];
            var e, m := PutPtr(d, PtrTo(FreeHead, l.free, a), d.idx[o].ptr), l.(free := Without(l.free, a));
            Wf(c, e, m) && Loose(e, m, o) && SameMap(c, d, l, e, m)
  {
    var xs := l.free;
    var o := xs[a];
    assert xs[a] in d.idx && (a > 0 ==> xs[a - 1] in d.idx);
    var e, m := PutPtr(d, PtrTo(FreeHead, xs, a), d.idx[o].ptr), l.(free := Without(xs, a));
    PutPtrExtents(c, d, PtrTo(FreeHead, xs, a), d.idx[o].ptr);
    Unlink(d, e, d.free, e.free, xs, a);
    WithoutAt(xs, a);
    forall i | 0 <= i < |l.chains| ensures ChainOk(c, e, i, l.chains[i]) && Disjoint(l.chains[i], m.free) && o !in l.chains[i] {
      assert ChainOk(c, d, i, l.chains[i]) && Disjoint(l.chains[i], xs);
      ChainFrame(c, d, e, i, l.chains[i]);
    }
    MapFrame(c, d, e, l);
    assert forall key :: Get(c, e, m, key) == Get(c, e, l, key);
  }

  lemma TakeFree(c: Config, d: Disk, l: Layout, a: nat)
    requires c.Ok() && Wf(c, d, l) && a < |l.free|
    ensures var o, loc, m := l.free[a], PtrTo(FreeHead, l.free, a), l.(free := Without(l.free, a));
            && o in d.idx && HasPtr(d, loc) && o <= c.ptrMax && d.idx[o].ptr <= c.ptrMax
            && (var e := PutPtr(d, loc, d.idx[o].ptr);
                Wf(c, e, m) && Loose(e, m, o) && e.idx[o] == d.idx[o] && SameMap(c, d, l, e, m))
  {
    ListStep(c, d, l, d.free, l.free);
    UnlinkFree(c, d, l, a);
    assert l.free[a] in l.free;
  }

  lemma WithoutSeparate(l: Layout, i: nat, a: nat)
    requires Separate(l) && i < |l.chains| && a < |l.chains[i]|
    ensures var m := l.(chains := l.chains[i := Without(l.chains[i], a)]);
            Separate(m) && !Listed(m, l.chains[i][a])
  {
    var xs := l.chains[i];
    var m := l.(chains := l.chains[i := Without(xs, a)]);
    WithoutAt(xs, a);
    assert NoDup(xs) && Disjoint(xs, l.free);
    forall j, k | 0 <= j < k < |m.chains| ensures Disjoint(m.chains[j], m.chains[k]) {
      assert Disjoint(l.chains[j], l.chains[k]);
    }
    forall j | 0 <= j < |m.chains| ensures xs[a] !in m.chains[j] {
      if j < i { assert Disjoint(l.chains[j], l.chains[i]); }
      if j > i { assert Disjoint(l.chains[i], l.chains[j]); }
    }
  }

  lemma {:induction false} LookupWithout(d: Disk, e: Disk, xs: seq<nat>, a: nat, key: string)
    requires a < |xs| && forall b :: 0 <= b < |xs| ==> xs[b] in d.idx && SameRec(d, e, xs[b])
    requires forall b, b' :: 0 <= b < b' < |xs| ==> d.idx[xs[b]].key != d.idx[xs[b']].key
    ensures Lookup(e, Without(xs, a), key) == if key == d.idx[xs[a]].key then None else Lookup(d, xs, key)
  {
    var ys := Without(xs, a);
    assert SameRec(d, e, xs[0]);
    if a == 0 {
      assert ys == xs[1..];
      LookupFrame(d, e, ys, key);
      LookupFinds(d, ys, key);
    } else {
      assert ys[0] == xs[0] && ys[1..] == Without(xs[1..], a - 1);
      LookupWithout(d, e, xs[1..], a - 1, key);
    }
  }

  /** Taking record a off chain i: its key is gone, all others stay. */
  lemma UnlinkChain(c: Config, d: Disk, l: Layout, i: nat, a: nat)
    requires c.Ok() && Wf(c, d, l) && i < |l.chains| && a < |l.chains[i]|
    ensures HasPtr(d, PtrTo(Head(i), l.chains[i], a)) && l.chains[i][a] in d.idx
    ensures var o := l.chains[i][a];
            var e, m := PutPtr(d, PtrTo(Head(i), l.chains[i], a), d.idx[o].ptr), l.(chains := l.chains[i := Without(l.chains[i], a)]);
            Wf(c, e, m) && Loose(e, m, o) && Updated(c, d, l, e, m, d.idx[o].key, None)
  {
    var xs := l.chains[i];
    var o := xs[a];
    assert ChainOk(c, d, i, xs);
    assert xs[a] in d.idx && (a > 0 ==> xs[a - 1] in d.idx);
    var loc := PtrTo(Head(i), xs, a);
    var e, m := PutPtr(d, loc, d.idx[o].ptr), l.(chains := l.chains[i := Without(xs, a)]);
    PutPtrExtents(c, d, loc, d.idx[o].ptr);
    assert NoDup(xs);
    Unlink(d, e, d.heads[i], e.heads[i], xs, a);
    WithoutSeparate(l, i, a);
    WithoutAt(xs, a);
    UnlinkedChainOk(c, d, e, i, xs, a);
    UnlinkedOthers(c, d, e, l, i, a);
    UnlinkedMap(c, d, e, l, m, i, a);
  }

  lemma UnlinkedChainOk(c: Config, d: Disk, e: Disk, i: nat, xs: seq<nat>, a: nat)
    requires c.Ok() && i < |d.heads| == |e.heads| && ChainOk(c, d, i, xs) && a < |xs|
    requires Linked(e, e.heads[i], Without(xs, a))
    requires forall o :: o in d.idx ==> SameRec(d, e, o)
    ensures ChainOk(c, e, i, Without(xs, a))
  {
    assert forall x <- xs :: x in d.idx;
    assert forall x <- xs :: x in e.idx && e.idx[x].key == d.idx[x].key by { hide DataOf, Linked; }
    hide SameRec, Linked, Without;
    KeysWithout(c, d, e, i, xs, a);
    WithoutAt(xs, a);
  }

  lemma KeysWithout(c: Config, d: Disk, e: Disk, i: nat, xs: seq<nat>, a: nat)
    requires c.Ok() && a < |xs|
    requires forall x <- xs :: x in d.idx && x in e.idx && e.idx[x].key == d.idx[x].key
    requires forall b :: 0 <= b < |xs| ==> c.Chain(d.idx[xs[b]].key) == i
    requires forall b, b' :: 0 <= b < b' < |xs| ==> d.idx[xs[b]].key != d.idx[xs[b']].key
    ensures var ys := Without(xs, a);
            && (forall x <- ys :: x in e.idx)
            && (forall b :: 0 <= b < |ys| ==> c.Chain(e.idx[ys[b]].key) == i)
            && (forall b, b' :: 0 <= b < b' < |ys| ==> e.idx[ys[b]].key != e.idx[ys[b']].key)
  {
    var ys := Without(xs, a);
    WithoutAt(xs, a);
    hide Without, Config.Chain;
    forall b, b' | 0 <= b < b' < |ys| ensures e.idx[ys[b]].key != e.idx[ys[b']].key {
      var k, k' := if b < a then b else b + 1, if b' < a then b' else b' + 1;
      assert ys[b] == xs[k] && ys[b'] == xs[k'];
    }
  }

  lemma UnlinkedOthers(c: Config, d: Disk, e: Disk, l: Layout, i: nat, a: nat)
    requires c.Ok() && Wf(c, d, l) && i < |l.chains| && a < |l.chains[i]| && l.chains[i][a] in d.idx
    requires HasPtr(d, PtrTo(Head(i), l.chains[i], a)) && e == PutPtr(d, PtrTo(Head(i), l.chains[i], a), d.idx[l.chains[i][a]].ptr)
    ensures |e.heads| == |d.heads|
    ensures forall j :: 0 <= j < |l.chains| && j != i ==> ChainOk(c, e, j, l.chains[j])
    ensures Linked(e, e.free, l.free)
  {
    var xs := l.chains[i];
    assert Disjoint(xs, l.free);
    LinkedFrame(d, e, d.free, l.free);
    forall j | 0 <= j < |l.chains| && j != i ensures ChainOk(c, e, j, l.chains[j]) {
      assert ChainOk(c, d, j, l.chains[j]);
      if j < i { assert Disjoint(l.chains[j], l.chains[i]); } else { assert Disjoint(l.chains[i], l.chains[j]); }
      ChainFrame(c, d, e, j, l.chains[j]);
    }
  }

  lemma UnlinkedMap(c: Config, d: Disk, e: Disk, l: Layout, m: Layout, i: nat, a: nat)
    requires c.Ok() && Lists(c, d, l) && i < |l.chains| && a < |l.chains[i]|
    requires m == l.(chains := l.chains[i := Without(l.chains[i], a)])
    requires forall o :: o in d.idx ==> SameRec(d, e, o)
    ensures l.chains[i][a] in d.idx && Updated(c, d, l, e, m, d.idx[l.chains[i][a]].key, None)
  {
    var xs := l.chains[i];
    assert ChainOk(c, d, i, xs);
    MapFrame(c, d, e, l);
    forall k ensures Get(c, e, m, k) == if k == d.idx[xs[a]].key then None else Get(c, d, l, k) {
      if c.Chain(k) == i { LookupWithout(d, e, xs, a, k); } else { assert Get(c, e, l, k) == Get(c, d, l, k); }
    }
  }

  lemma HeadBelow(c: Config, d: Disk, l: Layout, i: nat)
    requires c.Ok() && Lists(c, d, l) && i < |d.heads|
    ensures d.heads[i] <= c.ptrMax
  {
    assert ChainOk(c, d, i, l.chains[i]);
    if l.chains[i] != [] { assert l.chains[i][0] in l.chains[i]; }
  }

  lemma TakeChain(c: Config, d: Disk, l: Layout, i: nat, a: nat)
    requires c.Ok() && Wf(c, d, l) && i < |l.chains| && a < |l.chains[i]|
    ensures var o, loc, m := l.chains[i][a], PtrTo(Head(i), l.chains[i], a), l.(chains := l.chains[i := Without(l.chains[i], a)]);
            && o in d.idx && HasPtr(d, loc) && o <= c.ptrMax && d.idx[o].ptr <= c.ptrMax
            && (var e := PutPtr(d, loc, d.idx[o].ptr);
                Wf(c, e, m) && Loose(e, m, o) && e.idx[o] == d.idx[o] && Updated(c, d, l, e, m, d.idx[o].key, None))
  {
    assert ChainOk(c, d, i, l.chains[i]) && NoDup(l.chains[i]);
    ListStep(c, d, l, d.heads[i], l.chains[i]);
    UnlinkChain(c, d, l, i, a);
    assert l.chains[i][a] in l.chains[i];
  }

  /** Same-size replacement: only the data bytes of the located record change. */
  lemma OverwriteListed(c: Config, d: Disk, l: Layout, key: string, a: nat, data: string)
    requires c.Ok() && Wf(c, d, l) && a < |l.chains[c.Chain(key)]|
    requires var o := l.chains[c.Chain(key)][a];
             o in d.idx && d.idx[o].key == key && d.idx[o].datlen == |data| + 1
    ensures var o := l.chains[c.Chain(key)][a];
            d.idx[o].datoff <= |d.dat|
            && (var e := PutDat(d, d.idx[o].datoff, data + "\n");
                Wf(c, e, l) && Updated(c, d, l, e, l, key, Some(data)) && |e.dat| == |d.dat|)
  {
    var i := c.Chain(key);
    var xs := l.chains[i];
    var o := xs[a];
    OverwriteData(c, d, l, o, data);
    var e := PutDat(d, d.idx[o].datoff, data + "\n");
    assert ChainOk(c, d, i, xs);
    forall k ensures Get(c, e, l, k) == if k == key then Some(data) else Get(c, d, l, k) {
      var j := c.Chain(k);
      var ys := l.chains[j];
      assert ChainOk(c, d, j, ys) && ChainOk(c, e, j, ys);
      LookupFinds(d, ys, k);
      LookupFinds(e, ys, k);
      if k != key && Lookup(d, ys, k).Some? {
        var b :| 0 <= b < |ys| && d.idx[ys[b]].key == k;
        assert SameRec(d, e, ys[b]);
      }
    }
  }

  /** What each step of an append leaves, however far it gets. */
  lemma AppendSteps(c: Config, d: Disk, l: Layout, key: string, data: string)
    requires c.Ok() && Wf(c, d, l) && Get(c, d, l, key).None?
    ensures var i := c.Chain(key);
            var d1 := PutDat(d, |d.dat|, data + "\n");
            var r := IdxRec(d.heads[i], key, |d.dat|, |data| + 1);
            && Wf(c, d1, l) && SameMap(c, d, l, d1, l)
            && (c.idxlenMin <= RecLen(r) <= c.idxlenMax ==>
                  var d2 := PutIdx(c, d1, d.idxEnd, r);
                  && Wf(c, d2, l) && SameMap(c, d, l, d2, l)
                  && (d.idxEnd <= c.ptrMax ==>
                        var d3, m := PutPtr(d2, Head(i), d.idxEnd), Published(l, i, d.idxEnd);
                        Wf(c, d3, m) && Updated(c, d, l, d3, m, key, Some(data))))
  {
    var i := c.Chain(key);
    var d1 := PutDat(d, |d.dat|, data + "\n");
    AppendData(c, d, l, data + "\n");
    var r := IdxRec(d.heads[i], key, |d.dat|, |data| + 1);
    if c.idxlenMin <= RecLen(r) <= c.idxlenMax {
      forall o | o in d1.idx ensures d1.idx[o].datoff + d1.idx[o].datlen <= r.datoff { assert InFiles(c, d, o); }
      AppendIndex(c, d1, l, r);
      if d.idxEnd <= c.ptrMax { PublicationSafety(c, d, l, key, data); }
    }
  }

  /** A free record filled with a new key and data, then published: the same
      safety after each of the three writes. */
  lemma ReuseSteps(c: Config, d: Disk, l: Layout, o: nat, key: string, data: string)
    requires c.Ok() && Wf(c, d, l) && |d.heads| == |l.chains| == c.nhash && Get(c, d, l, key).None?
    requires Loose(d, l, o) && o <= c.ptrMax && |d.idx[o].key| == |key| && d.idx[o].datlen == |data| + 1
    ensures var i := c.Chain(key);
            var r := IdxRec(d.heads[i], key, d.idx[o].datoff, |data| + 1);
            && d.idx[o].datoff <= |d.dat|
            && (var d1 := PutDat(d, d.idx[o].datoff, data + "\n");
                var d2 := PutIdx(c, d1, o, r);
                var d3, m := PutPtr(d2, Head(i), o), Published(l, i, o);
                && d.heads[i] <= c.ptrMax && c.idxlenMin <= RecLen(r) <= c.idxlenMax
                && Wf(c, d1, l) && SameMap(c, d, l, d1, l)
                && Wf(c, d2, l) && SameMap(c, d, l, d2, l)
                && Wf(c, d3, m) && Updated(c, d, l, d3, m, key, Some(data)))
  {
    hide Wf, SameMap, Updated, Get, Listed;
    var i := c.Chain(key);
    var r := IdxRec(d.heads[i], key, d.idx[o].datoff, |data| + 1);
    WfFacts(c, d, l, o, i);
    OverwriteData(c, d, l, o, data);
    var d1 := PutDat(d, d.idx[o].datoff, data + "\n");
    LooseMapFrame(c, d, d1, l, o);
    RewriteIndex(c, d1, l, o, r);
    var d2 := PutIdx(c, d1, o, r);
    SameTrans(c, d, l, d1, l, d2, l);
    SameAt(c, d, l, d2, l, key);
    Publish(c, d2, l, o);
    UpdatedAfterSame(c, d, l, d2, l, PutPtr(d2, Head(i), o), Published(l, i, o), key, Some(data));
  }

  lemma WfFacts(c: Config, d: Disk, l: Layout, o: nat, i: nat)
    requires c.Ok() && Wf(c, d, l) && o in d.idx && i < c.nhash
    ensures |d.heads| == |l.chains| == c.nhash && InFiles(c, d, o) && d.heads[i] <= c.ptrMax && d.free <= c.ptrMax
  {
    HeadBelow(c, d, l, i);
    if l.free != [] { assert l.free[0] in l.free; }
  }

  lemma LooseMapFrame(c: Config, d: Disk, e: Disk, l: Layout, o: nat)
    requires c.Ok() && Wf(c, d, l) && Loose(d, l, o)
    requires forall p :: p in d.idx && p != o ==> SameRec(d, e, p)
    ensures |l.chains| == c.nhash && SameMap(c, d, l, e, l)
  {
    MapFrame(c, d, e, l);
  }

  /** A loose record blanked and put in front of the free list: nothing is lost
      after any of the three writes. */
  lemma BlankSteps(c: Config, d: Disk, l: Layout, o: nat, data: string, key: string)
    requires c.Ok() && Wf(c, d, l) && |l.chains| == c.nhash && Loose(d, l, o) && o <= c.ptrMax
    requires |key| == |d.idx[o].key| && |data| + 1 == d.idx[o].datlen
    ensures var r := IdxRec(d.free, key, d.idx[o].datoff, d.idx[o].datlen);
            && d.idx[o].datoff <= |d.dat| && d.free <= c.ptrMax && c.idxlenMin <= RecLen(r) <= c.idxlenMax
            && (var d1 := PutDat(d, d.idx[o].datoff, data + "\n");
                var d2 := PutIdx(c, d1, o, r);
                var d3, m := PutPtr(d2, FreeHead, o), l.(free := [o] + l.free);
                && |d3.dat| == |d.dat| && d3.idxEnd == d.idxEnd
                && Wf(c, d1, l) && SameMap(c, d, l, d1, l)
                && Wf(c, d2, l) && SameMap(c, d, l, d2, l)
                && Wf(c, d3, m) && SameMap(c, d, l, d3, m)
                && d3.idx[o].key == key && DataOf(d3, o) == data
                && SizesOf(d3.idx, m.free) == SizesOf(d.idx, l.free) + multiset{(|key|, |data| + 1)})
  {
    hide Wf, SameMap, Get, Listed;
    var r := IdxRec(d.free, key, d.idx[o].datoff, d.idx[o].datlen);
    WfFacts(c, d, l, o, 0);
    OverwriteData(c, d, l, o, data);
    var d1 := PutDat(d, d.idx[o].datoff, data + "\n");
    LooseMapFrame(c, d, d1, l, o);
    RewriteIndex(c, d1, l, o, r);
    var d2 := PutIdx(c, d1, o, r);
    SameTrans(c, d, l, d1, l, d2, l);
    RewriteSizes(c, d1, l, o, r);
    PushFree(c, d2, l, o);
    SizesPush(d2.idx, o, l.free);
    PtrSizes(d2, FreeHead, o, [o] + l.free);
    hide SizesOf;
    SameTrans(c, d, l, d2, l, PutPtr(d2, FreeHead, o), l.(free := [o] + l.free));
  }

  // ---------------------------------------------------------------- sizes on the free list

  /** Key and data lengths of a record. */
  function SizeAt(idx: map<nat, IdxRec>, o: nat): (nat, nat) {
    if o in idx then (|idx[o].key|, idx[o].datlen) else (0, 0)
  }

  function Sizes(idx: map<nat, IdxRec>, xs: seq<nat>): seq<(nat, nat)> {
    seq(|xs|, i requires 0 <= i < |xs| => SizeAt(idx, xs[i]))
  }

  /** The sizes that can be reused. */
  function SizesOf(idx: map<nat, IdxRec>, xs: seq<nat>): multiset<(nat, nat)> { multiset(Sizes(idx, xs)) }

  lemma SizesSame(idx: map<nat, IdxRec>, idx': map<nat, IdxRec>, xs: seq<nat>)
    requires forall x <- xs :: SizeAt(idx, x) == SizeAt(idx', x)
    ensures SizesOf(idx, xs) == SizesOf(idx', xs)
  {
    assert Sizes(idx, xs) == Sizes(idx', xs);
  }

  lemma SizesHas(idx: map<nat, IdxRec>, xs: seq<nat>, size: (nat, nat))
    ensures size in SizesOf(idx, xs) <==> exists o <- xs :: SizeAt(idx, o) == size
  {
    var s := Sizes(idx, xs);
    assert size in SizesOf(idx, xs) <==> size in s;
    if o :| o in xs && SizeAt(idx, o) == size {
      var i :| 0 <= i < |xs| && xs[i] == o;
      assert s[i] == size;
    }
  }

  lemma SizesPush(idx: map<nat, IdxRec>, o: nat, xs: seq<nat>)
    ensures SizesOf(idx, [o] + xs) == SizesOf(idx, xs) + multiset{SizeAt(idx, o)}
  {
    assert Sizes(idx, [o] + xs) == [SizeAt(idx, o)] + Sizes(idx, xs);
  }

  lemma SizesWithout(idx: map<nat, IdxRec>, xs: seq<nat>, a: nat)
    requires a < |xs|
    ensures SizesOf(idx, xs) == SizesOf(idx, Without(xs, a)) + multiset{SizeAt(idx, xs[a])}
  {
    var s := Sizes(idx, xs);
    assert Sizes(idx, Without(xs, a)) == s[..a] + s[a + 1..];
    assert s == s[..a] + [s[a]] + s[a + 1..];
  }

  lemma PtrSizes(d: Disk, loc: PtrLoc, v: nat, xs: seq<nat>)
    requires HasPtr(d, loc)
    ensures SizesOf(PutPtr(d, loc, v).idx, xs) == SizesOf(d.idx, xs)
  {
    SizesSame(d.idx, PutPtr(d, loc, v).idx, xs);
  }

  /** An appended record changes no free one, and is as long as its bytes. */
  lemma AppendSizes(c: Config, d: Disk, l: Layout, r: IdxRec)
    requires c.Ok() && Wf(c, d, l)
    ensures var e := PutIdx(c, d, d.idxEnd, r);
            SizesOf(e.idx, l.free) == SizesOf(d.idx, l.free) && e.idxEnd == d.idxEnd + Size(c, r)
  {
    forall o | o in d.idx ensures o + Size(c, d.idx[o]) <= d.idxEnd { assert InFiles(c, d, o); }
    AppendsOne(c, d, d.idxEnd, r);
    SizesSame(d.idx, PutIdx(c, d, d.idxEnd, r).idx, l.free);
  }

  /** A rewritten loose record is not on the free list, and moves no end. */
  lemma RewriteSizes(c: Config, d: Disk, l: Layout, o: nat, r: IdxRec)
    requires c.Ok() && Wf(c, d, l) && Loose(d, l, o)
    requires |r.key| == |d.idx[o].key| && r.datoff == d.idx[o].datoff && r.datlen == d.idx[o].datlen
    ensures var e := PutIdx(c, d, o, r);
            SizesOf(e.idx, l.free) == SizesOf(d.idx, l.free) && e.idxEnd == d.idxEnd && SizeAt(e.idx, o) == SizeAt(d.idx, o)
  {
    RewriteIndex(c, d, l, o, r);
    SizesSame(d.idx, PutIdx(c, d, o, r).idx, l.free);
  }

  /** Putting a loose record in front of the free list. */
  lemma PushFree(c: Config, d: Disk, l: Layout, o: nat)
    requires c.Ok() && Wf(c, d, l) && Loose(d, l, o) && o <= c.ptrMax && d.idx[o].ptr == d.free
    ensures var e, m := PutPtr(d, FreeHead, o), l.(free := [o] + l.free);
            Wf(c, e, m) && SameMap(c, d, l, e, m)
  {
    var e, m := PutPtr(d, FreeHead, o), l.(free := [o] + l.free);
    PutPtrExtents(c, d, FreeHead, o);
    assert Linked(e, e.free, m.free);
    forall i | 0 <= i < |l.chains| ensures ChainOk(c, e, i, l.chains[i]) && Disjoint(l.chains[i], m.free) {
      assert ChainOk(c, d, i, l.chains[i]) && Disjoint(l.chains[i], l.free) && o !in l.chains[i];
      ChainFrame(c, d, e, i, l.chains[i]);
    }
    MapFrame(c, d, e, l);
    assert forall key :: Get(c, e, m, key) == Get(c, e, l, key);
  }
}

module HashStore {
  import opened Common
  import opened HashFiles

  /** db_store() returns 0, 1 or -1, or stops the program with a fatal error. */
  datatype StoreResult = Stored | Exists | Missing | Halted

  function Blanks(n: nat): (s: string)
    ensures |s| == n && forall ch <- s :: ch == ' '
  {
    seq(n, _ => ' ')
  }

  class Db {
    const c: Config
    // the two files
    var heads: seq<nat>
    var free: nat
    var idx: map<nat, IdxRec>
    var idxEnd: nat
    var dat: string
    // the working fields of the DB structure
    var chainoff: nat
    var ptroff: PtrLoc
    var ptrval: nat
    var idxoff: nat
    var datoff: nat
    var datlen: nat
    var cntStor1: nat
    var cntStor2: nat
    var cntStor3: nat
    var cntStor4: nat
    var cntStorerr: nat
    ghost var layout: Layout

    /** An empty database: null pointers and a newline. */
    constructor (c: Config)
      requires c.Ok()
      ensures this.c == c && idxEnd == (c.nhash + 1) * c.ptrSize + 1 && dat == "" && FreeSizes() == multiset{}
      ensures Valid() && forall key :: At(key) == None
    {
      this.c := c;
      heads, free, idx, idxEnd, dat := seq(c.nhash, _ => 0), 0, map[], c.Base(), "";
      ptroff, layout := FreeHead, Layout(seq(c.nhash, _ => []), []);
      new;
      assert forall i :: 0 <= i < |layout.chains| ==> layout.chains[i] == [];
    }

    ghost function Files(): Disk
      reads this
    {
      Disk(heads, free, idx, idxEnd, dat)
    }

    ghost predicate Valid()
      reads this
    {
      c.Ok() && |layout.chains| == |heads| == c.nhash && Wf(c, Files(), layout)
    }

    /** The stored data of a key. */
    ghost function At(key: string): Option<string>
      reads this
      requires Valid()
    {
      Get(c, Files(), layout, key)
    }

    ghost function Counters(): (nat, nat, nat, nat, nat)
      reads this
    {
      (cntStor1, cntStor2, cntStor3, cntStor4, cntStorerr)
    }

    // -------------------------------------------------------------- file access

    method WriteDat(data: string, offset: nat, append: bool)
      requires !append ==> offset <= |dat|
      modifies this`datoff, this`datlen, this`dat
      ensures datoff == (if append then |old(dat)| else offset) && datlen == |data| + 1
      ensures Files() == PutDat(old(Files()), datoff, data + "\n")
    {
      datoff := if append then |dat| else offset;
      datlen := |data| + 1;
      var bytes := data + "\n";
      dat := dat[..datoff] + bytes + if datoff + |bytes| < |dat| then dat[datoff + |bytes|..] else "";
    }

    method WriteIdx(key: string, offset: nat, append: bool, ptr: nat) returns (ok: bool)
      modifies this`ptrval, this`idxoff, this`idx, this`idxEnd
      ensures ok <==> ptr <= c.ptrMax && c.idxlenMin <= TextLen(|key|, datoff, datlen) <= c.idxlenMax
      ensures ok ==> idxoff == (if append then old(idxEnd) else offset)
      ensures Files() == if ok then PutIdx(c, old(Files()), idxoff, IdxRec(ptr, key, datoff, datlen)) else old(Files())
      ensures ok && append ==> forall sep: char :: idxEnd == old(idxEnd) + c.ptrSize + c.idxlenSize + |IndexText(key, datoff, datlen, sep)|
    {
      forall sep: char ensures |IndexText(key, datoff, datlen, sep)| == TextLen(|key|, datoff, datlen) { TextLenIs(key, datoff, datlen, sep); }
      ptrval := ptr;
      if ptrval > c.ptrMax { return false; }
      var len := TextLen(|key|, datoff, datlen);
      if len < c.idxlenMin || len > c.idxlenMax { return false; }
      idxoff := if append then idxEnd else offset;
      var r := IdxRec(ptr, key, datoff, datlen);
      idx := (map o | o in idx && Apart(o, Size(c, idx[o]), idxoff, Size(c, r)) :: idx[o])[idxoff := r];
      idxEnd := Max(idxEnd, idxoff + Size(c, r));
      ok := true;
    }

    method WritePtr(loc: PtrLoc, v: nat) returns (ok: bool)
      requires HasPtr(Files(), loc)
      modifies this`heads, this`free, this`idx
      ensures ok <==> v <= c.ptrMax
      ensures Files() == if ok then PutPtr(old(Files()), loc, v) else old(Files())
    {
      if v > c.ptrMax { return false; }
      match loc {
        case FreeHead => free := v;
        case Head(i) => heads := heads[i := v];
        case InRec(o) => idx := idx[o := idx[o].(ptr := v)];
      }
      ok := true;
    }

    /** A pointer field of the index file. */
    function ReadPtr(loc: PtrLoc): (v: nat)
      reads this
      requires match loc case FreeHead => true case Head(i) => i < |heads| case InRec(o) => o in idx
      ensures v == HashFiles.ReadPtr(Files(), loc)
    {
      match loc
      case FreeHead => free
      case Head(i) => heads[i]
      case InRec(o) => idx[o].ptr
    }

    // -------------------------------------------------------------- searching

    /** The record of `key`, at position a of its chain; also remembers where the
        pointer to it is. */
    ghost predicate Located(key: string, a: nat)
      reads this
      requires Valid()
    {
      && chainoff == c.Chain(key) && a < |layout.chains[chainoff]|
      && idxoff == layout.chains[chainoff][a] && idxoff in idx
      && idx[idxoff] == IdxRec(ptrval, key, datoff, datlen)
      && ptroff == PtrTo(Head(chainoff), layout.chains[chainoff], a)
    }

    /** Follows the pointers of chain i until the key or the end of the chain. */
    method ScanChain(i: nat, key: string) returns (loc: PtrLoc, o: nat, ghost a: nat)
      requires Valid() && i < |layout.chains|
      ensures a <= |layout.chains[i]|
      ensures forall b :: 0 <= b < a ==> layout.chains[i][b] in idx && idx[layout.chains[i][b]].key != key
      ensures if a == |layout.chains[i]| then o == 0
              else o != 0 && o == layout.chains[i][a] && o in idx && idx[o].key == key && loc == PtrTo(Head(i), layout.chains[i], a)
    {
      ghost var xs := layout.chains[i];
      ListStep(c, Files(), layout, heads[i], xs);
      loc, o, a := Head(i), ReadPtr(Head(i)), 0;
      while o != 0 && idx[o].key != key
        invariant 0 <= a <= |xs| && o == (if a < |xs| then xs[a] else 0)
        invariant a < |xs| ==> loc == PtrTo(Head(i), xs, a)
        invariant forall b :: 0 <= b < a ==> idx[xs[b]].key != key
        decreases |xs| - a
      {
        loc, o := InRec(o), ReadPtr(InRec(o));
        a := a + 1;
      }
    }

    method Find(key: string) returns (found: bool, ghost a: nat)
      requires Valid()
      modifies this`chainoff, this`ptroff, this`ptrval, this`idxoff, this`datoff, this`datlen
      ensures Valid() && chainoff == c.Chain(key)
      ensures found <==> At(key).Some?
      ensures found ==> Located(key, a) && At(key) == Some(DataOf(Files(), idxoff)) && |At(key).value| + 1 == datlen
    {
      hide Wf, Get;
      var i := c.Chain(key);
      var loc, o;
      loc, o, a := ScanChain(i, key);
      found := o != 0;
      GetScanned(c, Files(), layout, key, a);
      chainoff, ptroff := i, loc;
      if found {
        idxoff, ptrval, datoff, datlen := o, idx[o].ptr, idx[o].datoff, idx[o].datlen;
      }
    }

    predicate Fitting(r: IdxRec, keylen: nat, len: nat) { |r.key| == keylen && r.datlen == len }

    /** The sizes of the deleted records. */
    ghost function FreeSizes(): multiset<(nat, nat)>
      reads this
    {
      SizesOf(idx, layout.free)
    }

    /** A deleted record whose key and data are as long as the new ones. */
    ghost predicate Reusable(keylen: nat, len: nat)
      reads this
    {
      (keylen, len) in FreeSizes()
    }

    method ScanFree(keylen: nat, len: nat) returns (loc: PtrLoc, o: nat, ghost a: nat)
      requires Valid()
      ensures a <= |layout.free|
      ensures forall b :: 0 <= b < a ==> layout.free[b] in idx && !Fitting(idx[layout.free[b]], keylen, len)
      ensures if a == |layout.free| then o == 0
              else o != 0 && o == layout.free[a] && o in idx && Fitting(idx[o], keylen, len) && loc == PtrTo(FreeHead, layout.free, a)
    {
      ghost var xs := layout.free;
      ListStep(c, Files(), layout, free, xs);
      loc, o, a := FreeHead, ReadPtr(FreeHead), 0;
      while o != 0 && !Fitting(idx[o], keylen, len)
        invariant 0 <= a <= |xs| && o == (if a < |xs| then xs[a] else 0)
        invariant a < |xs| ==> loc == PtrTo(FreeHead, xs, a)
        invariant forall b :: 0 <= b < a ==> !Fitting(idx[xs[b]], keylen, len)
        decreases |xs| - a
      {
        loc, o := InRec(o), ReadPtr(InRec(o));
        a := a + 1;
      }
    }

    method FindFree(keylen: nat, len: nat) returns (found: bool)
      requires Valid()
      modifies this`ptrval, this`idxoff, this`datoff, this`datlen, this`heads, this`free, this`idx, this`layout
      ensures heads == old(heads) && dat == old(dat) && idxEnd == old(idxEnd)
      ensures Valid() && SameMap(c, old(Files()), old(layout), Files(), layout)
      ensures found <==> old(Reusable(keylen, len))
      ensures !found ==> Files() == old(Files()) && layout == old(layout)
      ensures found ==> Loose(Files(), layout, idxoff) && idxoff <= c.ptrMax && Fitting(idx[idxoff], keylen, len)
                        && datoff == idx[idxoff].datoff && datlen == len
      ensures found ==> old(FreeSizes()) == FreeSizes() + multiset{(keylen, len)}
      ensures found ==> idxoff in old(layout.free) && |layout.free| == |old(layout.free)| - 1
    {
      var loc, o;
      ghost var a;
      loc, o, a := ScanFree(keylen, len);
      ghost var d, xs := Files(), layout.free;
      SizesHas(idx, xs, (keylen, len));
      if o == 0 { return false; }
      SizesWithout(idx, xs, a);
      TakeFree(c, d, layout, a);
      PtrSizes(d, loc, idx[o].ptr, Without(xs, a));
      WithoutAt(xs, a);
      assert o in layout.free;
      hide Wf, SameMap, SizesOf, Without, Loose;
      idxoff, ptrval, datoff, datlen := o, idx[o].ptr, idx[o].datoff, idx[o].datlen;
      var ok := WritePtr(loc, ptrval);
      layout := layout.(free := Without(xs, a));
      found := true;
    }

    // -------------------------------------------------------------- changing

    /** Deletes the located record: off its chain, blanked, and onto the free list. */
    method DoDelete(ghost key: string, ghost a: nat)
      requires Valid() && Located(key, a)
      modifies this`heads, this`free, this`idx, this`idxEnd, this`dat, this`layout, this`ptrval, this`idxoff, this`datoff, this`datlen
      ensures Valid() && Updated(c, old(Files()), old(layout), Files(), layout, key, None)
      ensures |dat| == |old(dat)| && idxEnd == old(idxEnd) && chainoff == old(chainoff)
      ensures layout.free == [old(idxoff)] + old(layout.free) && Blanked(old(idxoff))
      ensures FreeSizes() == old(FreeSizes()) + multiset{(|key|, old(datlen))}
    {
      hide Wf, SizesOf, Loose, DataOf, Get, SameMap, Updated, Blanked;
      ghost var d0, l0 := Files(), layout;
      Unchain(key, a);
      ghost var d1, l1 := Files(), layout;
      BlankAndFree();
      UpdatedTwice(c, d0, l0, d1, l1, Files(), layout, key, None);
    }

    /** First half of a deletion: the record leaves its chain. */
    method Unchain(ghost key: string, ghost a: nat)
      requires Valid() && Located(key, a)
      modifies this`heads, this`free, this`idx, this`layout
      ensures Valid() && Updated(c, old(Files()), old(layout), Files(), layout, key, None)
      ensures Loose(Files(), layout, idxoff) && idxoff <= c.ptrMax && idxoff in idx && idx[idxoff] == old(idx)[idxoff]
      ensures layout.free == old(layout.free) && FreeSizes() == old(FreeSizes())
    {
      ghost var d0, l0 := Files(), layout;
      TakeChain(c, d0, l0, chainoff, a);
      PtrSizes(d0, ptroff, ptrval, l0.free);
      hide Wf, SizesOf, Loose, DataOf, Get, SameMap, Updated, Without, PtrTo;
      var ok := WritePtr(ptroff, ptrval);
      layout := layout.(chains := layout.chains[chainoff := Without(layout.chains[chainoff], a)]);
    }

    /** Nothing but blanks is left of the record's key and data. */
    ghost predicate Blanked(o: nat)
      reads this
    {
      o in idx && (forall ch <- idx[o].key :: ch == ' ') && forall ch <- DataOf(Files(), o) :: ch == ' '
    }

    /** Second half of a deletion: the record is on no list. */
    method BlankAndFree()
      requires Valid() && Loose(Files(), layout, idxoff) && idxoff <= c.ptrMax
      requires datoff == idx[idxoff].datoff && datlen == idx[idxoff].datlen
      modifies this`free, this`heads, this`idx, this`idxEnd, this`dat, this`layout, this`ptrval, this`idxoff, this`datoff, this`datlen
      ensures Valid() && SameMap(c, old(Files()), old(layout), Files(), layout)
      ensures |dat| == |old(dat)| && idxEnd == old(idxEnd)
      ensures layout.free == [old(idxoff)] + old(layout.free) && Blanked(old(idxoff))
      ensures FreeSizes() == old(FreeSizes()) + multiset{SizeAt(old(idx), old(idxoff))}
    {
      var o, blank, data := idxoff, Blanks(|idx[idxoff].key|), Blanks(datlen - 1);
      ghost var d, l := Files(), layout;
      WfFacts(c, d, l, o, 0);
      BlankSteps(c, d, l, o, data, blank);
      hide Wf, SameMap, Loose, DataOf, SizesOf, PutDat, PutIdx, PutPtr, TextLen, IndexText, ChainOk, InFiles;
      WriteDat(data, datoff, false);
      var ok := WriteIdx(blank, o, false, free);
      ok := WritePtr(FreeHead, o);
      layout := layout.(free := [o] + layout.free);
    }

    /** The size limits a record appended now would have to meet. */
    predicate Fits(key: string, data: string)
      reads this
    {
      idxEnd <= c.ptrMax && c.idxlenMin <= TextLen(|key|, |dat|, |data| + 1) <= c.idxlenMax
    }

    /** New data and index records at the ends of the files, then the pointer. */
    method Append(key: string, data: string, ptr: nat) returns (ok: bool)
      requires Valid() && At(key).None? && chainoff == c.Chain(key) && ptr == heads[chainoff]
      modifies this`heads, this`free, this`idx, this`idxEnd, this`dat, this`layout, this`ptrval, this`idxoff, this`datoff, this`datlen
      ensures Valid()
      ensures ok <==> old(Fits(key, data))
      ensures ok ==> Updated(c, old(Files()), old(layout), Files(), layout, key, Some(data))
      ensures !ok ==> SameMap(c, old(Files()), old(layout), Files(), layout)
      ensures FreeSizes() == old(FreeSizes()) && |dat| == |old(dat)| + |data| + 1
      ensures ok ==> idxEnd == old(idxEnd) + c.ptrSize + c.idxlenSize + TextLen(|key|, |old(dat)|, |data| + 1)
      ensures ok ==> heads == old(heads)[chainoff := old(idxEnd)] && idxoff == old(idxEnd)
    {
      ghost var d0, l := Files(), layout;
      HeadBelow(c, d0, l, chainoff);
      AppendSteps(c, d0, l, key, data);
      AppendSizes(c, d0, l, IdxRec(ptr, key, |dat|, |data| + 1));
      WriteDat(data, 0, true);
      ok := WriteIdx(key, 0, true, ptr);
      if !ok { return; }
      ok := WritePtr(Head(chainoff), idxoff);
      if ok { layout := Published(layout, chainoff, idxoff); }
    }

    /** The deleted record found by FindFree, filled and put on the chain. */
    method Reuse(key: string, data: string, ptr: nat)
      requires Valid() && At(key).None? && chainoff == c.Chain(key) && ptr == heads[chainoff]
      requires Loose(Files(), layout, idxoff) && idxoff <= c.ptrMax && Fitting(idx[idxoff], |key|, |data| + 1)
      requires datoff == idx[idxoff].datoff && datlen == |data| + 1
      modifies this`heads, this`free, this`idx, this`idxEnd, this`dat, this`layout, this`ptrval, this`idxoff, this`datoff, this`datlen
      ensures Valid() && Updated(c, old(Files()), old(layout), Files(), layout, key, Some(data))
      ensures FreeSizes() == old(FreeSizes()) && |dat| == |old(dat)| && idxEnd == old(idxEnd)
      ensures heads == old(heads)[chainoff := old(idxoff)]
    {
      ghost var d0, l := Files(), layout;
      ReuseSteps(c, d0, l, idxoff, key, data);
      WfFacts(c, d0, l, idxoff, 0);
      RewriteSizes(c, d0, l, idxoff, IdxRec(ptr, key, datoff, datlen));
      hide Wf, SameMap, Updated, Get, DataOf;
      WriteDat(data, datoff, false);
      var ok := WriteIdx(key, idxoff, false, ptr);
      ok := WritePtr(Head(chainoff), idxoff);
      layout := Published(layout, chainoff, idxoff);
    }

    predicate LenOk(data: string) { c.datlenMin <= |data| + 1 <= c.datlenMax }

    /** The calls that put a record at the ends of the files. */
    ghost predicate Appends(key: string, data: string, insert: bool, replace: bool)
      reads this
      requires Valid()
    {
      match At(key)
      case None => !replace && !Reusable(|key|, |data| + 1)
      case Some(v) => !insert && |v| != |data|
    }

    /** db_store() for a key that is not there: reuse a deleted record, or append. */
    method StoreNew(key: string, data: string) returns (r: StoreResult)
      requires Valid() && At(key).None? && chainoff == c.Chain(key)
      modifies this
      ensures Valid()
      ensures r.Stored? || r.Halted?
      ensures r.Halted? <==> !old(Reusable(|key|, |data| + 1)) && !old(Fits(key, data))
      ensures r.Stored? ==> Updated(c, old(Files()), old(layout), Files(), layout, key, Some(data))
      ensures r.Halted? ==> SameMap(c, old(Files()), old(layout), Files(), layout)
      ensures if old(Reusable(|key|, |data| + 1))
              then old(FreeSizes()) == FreeSizes() + multiset{(|key|, |data| + 1)} && |dat| == |old(dat)| && idxEnd == old(idxEnd)
              else FreeSizes() == old(FreeSizes()) && |dat| == |old(dat)| + |data| + 1
                   && (r.Stored? ==> idxEnd == old(idxEnd) + c.ptrSize + c.idxlenSize + TextLen(|key|, |old(dat)|, |data| + 1))
      ensures var (s1, s2, s3, s4, e) := old(Counters());
              Counters() == if r.Halted? then old(Counters())
                            else if old(Reusable(|key|, |data| + 1)) then (s1, s2 + 1, s3, s4, e)
                            else (s1 + 1, s2, s3, s4, e)
    {
      hide Wf, SameMap, Updated, Get, SizesOf, DataOf;
      ghost var d0, l0 := Files(), layout;
      var ptr := ReadPtr(Head(chainoff));
      var reuse := FindFree(|key|, |data| + 1);
      ghost var d1, l1 := Files(), layout;
      SameAt(c, d0, l0, d1, l1, key);
      if !reuse {
        var ok := Append(key, data, ptr);
        if !ok { return Halted; }
        cntStor1 := cntStor1 + 1;
      } else {
        Reuse(key, data, ptr);
        cntStor2 := cntStor2 + 1;
      }
      UpdatedAfterSame(c, d0, l0, d1, l1, Files(), layout, key, Some(data));
      r := Stored;
    }

    /** db_store() for a key that is there: overwrite in place, or delete and append. */
    method StoreOver(key: string, data: string, ghost a: nat) returns (r: StoreResult)
      requires Valid() && Located(key, a) && At(key).Some? && |At(key).value| + 1 == datlen
      modifies this
      ensures Valid()
      ensures r.Stored? || r.Halted?
      ensures r.Halted? <==> |old(At(key)).value| != |data| && !old(Fits(key, data))
      ensures r.Stored? ==> Updated(c, old(Files()), old(layout), Files(), layout, key, Some(data))
      ensures r.Halted? ==> Updated(c, old(Files()), old(layout), Files(), layout, key, None)
      ensures if |old(At(key)).value| != |data|
              then FreeSizes() == old(FreeSizes()) + multiset{(|key|, |old(At(key)).value| + 1)} && |dat| == |old(dat)| + |data| + 1
                   && (r.Stored? ==> idxEnd == old(idxEnd) + c.ptrSize + c.idxlenSize + TextLen(|key|, |old(dat)|, |data| + 1))
              else FreeSizes() == old(FreeSizes()) && |dat| == |old(dat)| && idxEnd == old(idxEnd)
      ensures var (s1, s2, s3, s4, e) := old(Counters());
              Counters() == if r.Halted? then old(Counters())
                            else if |old(At(key)).value| != |data| then (s1, s2, s3 + 1, s4, e)
                            else (s1, s2, s3, s4 + 1, e)
    {
      hide Wf, SameMap, Updated, Get, SizesOf, DataOf;
      ghost var d0, l0 := Files(), layout;
      if |data| + 1 != datlen {
        DoDelete(key, a);
        ghost var d1, l1 := Files(), layout;
        UpdatedAt(c, d0, l0, d1, l1, key, None);
        var ptr := ReadPtr(Head(chainoff));
        var ok := Append(key, data, ptr);
        UpdatedTwice(c, d0, l0, d1, l1, Files(), layout, key, if ok then Some(data) else None);
        if !ok { return Halted; }
        cntStor3 := cntStor3 + 1;
      } else {
        OverwriteListed(c, d0, l0, key, a, data);
        WriteDat(data, datoff, false);
        cntStor4 := cntStor4 + 1;
      }
      r := Stored;
    }

    /** Refines updating a map from keys to data.  Only a fatal error in the middle
        of a replacement by data of another length loses anything, and then only
        the replaced key. */
    method Store(key: string, data: string, insert: bool, replace: bool) returns (r: StoreResult)
      requires Valid()
      modifies this
      ensures Valid()
      ensures r.Halted? <==> !LenOk(data) || (old(Appends(key, data, insert, replace)) && !old(Fits(key, data)))
      ensures !r.Halted? ==> (r.Missing? <==> old(At(key)).None? && replace)
      ensures !r.Halted? ==> (r.Exists? <==> old(At(key)).Some? && insert)
      ensures r.Stored? ==> Updated(c, old(Files()), old(layout), Files(), layout, key, Some(data))
      ensures r.Missing? || r.Exists? || !LenOk(data) ==> Files() == old(Files()) && layout == old(layout)
      ensures r.Halted? && (!LenOk(data) || old(At(key)).None?) ==> SameMap(c, old(Files()), old(layout), Files(), layout)
      ensures r.Halted? && LenOk(data) && old(At(key)).Some? ==> Updated(c, old(Files()), old(layout), Files(), layout, key, None)
      ensures Counters() == Count(old(Counters()), r, old(At(key)).Some?, old(Appends(key, data, insert, replace)))
      ensures LenOk(data) ==>
                if old(Appends(key, data, insert, replace))
                then FreeSizes() == old(FreeSizes()) + (if old(At(key)).Some? then multiset{(|key|, |old(At(key)).value| + 1)} else multiset{})
                     && |dat| == |old(dat)| + |data| + 1
                     && (r.Stored? ==> idxEnd == old(idxEnd) + c.ptrSize + c.idxlenSize + TextLen(|key|, |old(dat)|, |data| + 1))
                else FreeSizes() + (if r.Stored? && old(At(key)).None? then multiset{(|key|, |data| + 1)} else multiset{}) == old(FreeSizes())
                     && |dat| == |old(dat)| && idxEnd == old(idxEnd)
    {
      hide Wf, SameMap, Updated, Get, SizesOf, DataOf;
      ghost var d0, l0 := Files(), layout;
      SameRefl(c, d0, l0);
      if |data| + 1 < c.datlenMin || |data| + 1 > c.datlenMax { return Halted; }
      var found;
      ghost var a;
      found, a := Find(key);
      if !found {
        if replace {
          cntStorerr := cntStorerr + 1;
          return Missing;
        }
        r := StoreNew(key, data);
      } else {
        if insert {
          cntStorerr := cntStorerr + 1;
          return Exists;
        }
        r := StoreOver(key, data, a);
      }
    }
  }

  /** A key lost by a replacement that stops half way, for every configuration and
      every key whose first record is as long as IDXLEN_MAX allows: the new length
      takes one more digit. */
  method LosesKey(c: Config, key: string) returns (db: Db, first: StoreResult, second: StoreResult)
    requires c.Ok() && c.idxlenMin <= |key| + 5 == c.idxlenMax && c.datlenMin <= 2 && 10 <= c.datlenMax && c.Base() <= c.ptrMax
    ensures first == Stored && second == Halted
    ensures db.Valid() && db.At(key) == None
  {
    assert Digits(0) == 1 && Digits(2) == 1 && Digits(10) == 2;
    hide Wf, Updated, SameMap, Get, Digits;
    db := new Db(c);
    ghost var d, l := db.Files(), db.layout;
    assert db.Fits(key, "d");
    first := db.Store(key, "d", false, false);
    UpdatedAt(c, d, l, db.Files(), db.layout, key, Some("d"));
    d, l := db.Files(), db.layout;
    assert !db.Fits(key, "replacing");
    second := db.Store(key, "replacing", false, true);
    UpdatedAt(c, d, l, db.Files(), db.layout, key, None);
  }

  /** The statistics after one call. */
  ghost function Count(old_: (nat, nat, nat, nat, nat), r: StoreResult, present: bool, appends: bool): (nat, nat, nat, nat, nat) {
    var (s1, s2, s3, s4, e) := old_;
    if r.Halted? then old_
    else if !r.Stored? then (s1, s2, s3, s4, e + 1)
    else if present then if appends then (s1, s2, s3 + 1, s4, e) else (s1, s2, s3, s4 + 1, e)
    else if appends then (s1 + 1, s2, s3, s4, e) else (s1, s2 + 1, s3, s4, e)
  }
}
