/** Addresses, prefixes and longest-prefix routing. */
module Net {
  datatype Option<+T> = None | Some(value: T)

  datatype Family = V4 | V6

  function Width(f: Family): nat {
    if f.V4? then 32 else 128
  }

  function Pow2(n: nat): (p: nat)
    ensures p >= 1
  {
    if n == 0 then 1 else 2 * Pow2(n - 1)
  }

  /** An address is a number of `Width(family)` bits. */
  datatype RawAddr = Addr(family: Family, bits: nat)
  type IpAddr = a: RawAddr | a.bits < Pow2(Width(a.family)) witness Addr(V4, 0)

  /** A prefix as a user wrote it: host bits may be set. */
  datatype RawNet = Net(addr: IpAddr, len: nat)
  type IpNet = n: RawNet | n.len <= Width(n.addr.family) witness Net(Addr(V4, 0), 0)

  /** A network. `key` is the number made of the leading `len` bits, so equal networks are equal values. */
  datatype Prefix = Prefix(family: Family, len: nat, key: nat)

  function Quotient(a: nat, b: nat): nat
    requires b >= 1
  {
    a / b
  }

  /** The network of length `len` that holds `a`. */
  function NetOf(a: IpAddr, len: nat): Prefix
    requires len <= Width(a.family)
  {
    Prefix(a.family, len, Quotient(a.bits, Pow2(Width(a.family) - len)))
  }

  function Network(n: IpNet): Prefix {
    NetOf(n.addr, n.len)
  }

  function HostRoute(a: IpAddr): Prefix {
    NetOf(a, Width(a.family))
  }

  predicate Contains(p: Prefix, a: IpAddr) {
    p.len <= Width(a.family) && p == NetOf(a, p.len)
  }

  /** The halves of an address space, each one bit long. */
  function Half(f: Family, bit: nat): Prefix {
    Prefix(f, 1, bit)
  }

  lemma HostRouteIsInjective(a: IpAddr, b: IpAddr)
    ensures HostRoute(a) == HostRoute(b) <==> a == b
  {
    assert Pow2(0) == 1;
  }

  lemma EveryAddressIsInOneHalf(a: IpAddr)
    ensures NetOf(a, 1) == Half(a.family, 0) || NetOf(a, 1) == Half(a.family, 1)
  {
    var w := Width(a.family);
    var half := Pow2(w - 1);
    assert Pow2(w) == 2 * half;
    assert 0 <= a.bits / half < 2;
  }

  datatype NextHop = Dev(name: string) | Via(gateway: IpAddr)
  type Table = map<Prefix, NextHop>

  /** The route the kernel picks for `a` among those of length at most `len` and at least `floor`. */
  function LookupWithin(t: Table, a: IpAddr, len: nat, floor: nat): Option<NextHop>
    requires floor <= len <= Width(a.family)
  {
    var p := NetOf(a, len);
    if p in t then Some(t[p])
    else if len == floor then None
    else LookupWithin(t, a, len - 1, floor)
  }

  function Lookup(t: Table, a: IpAddr): Option<NextHop> {
    LookupWithin(t, a, Width(a.family), 0)
  }

  ghost predicate LongestMatch(t: Table, a: IpAddr, p: Prefix) {
    && p in t
    && Contains(p, a)
    && forall q :: q in t && Contains(q, a) ==> q.len <= p.len
  }

  /** `Lookup` is longest-prefix match: it finds `h` exactly when the longest matching entry leads to `h`. */
  lemma LookupIsLongestMatch(t: Table, a: IpAddr, h: NextHop)
    ensures Lookup(t, a) == Some(h) <==> exists p :: LongestMatch(t, a, p) && t[p] == h
    ensures Lookup(t, a) == None <==> forall p :: p in t ==> !Contains(p, a)
  {
    LookupWithinFinds(t, a, Width(a.family));
    if exists p :: LongestMatch(t, a, p) && t[p] == h {
      var p :| LongestMatch(t, a, p) && t[p] == h;
      var q :| LongestMatch(t, a, q) && Lookup(t, a) == Some(t[q]);
      assert q == p;
    }
  }

  lemma {:induction false} LookupWithinFinds(t: Table, a: IpAddr, len: nat)
    requires len <= Width(a.family)
    requires forall q :: q in t && Contains(q, a) ==> q.len <= len
    ensures LookupWithin(t, a, len, 0).Some? ==>
              exists p :: LongestMatch(t, a, p) && LookupWithin(t, a, len, 0) == Some(t[p])
    ensures LookupWithin(t, a, len, 0).None? ==> forall p :: p in t ==> !Contains(p, a)
  {
    var p := NetOf(a, len);
    if p in t {
      assert LongestMatch(t, a, p);
    } else {
      forall q | q in t && Contains(q, a)
        ensures q.len < len
      {
        assert q == NetOf(a, q.len);
      }
      if len > 0 {
        LookupWithinFinds(t, a, len - 1);
      }
    }
  }

  /** A lookup only sees the entries that hold the address. */
  lemma {:induction false} LookupWithinAgrees(t: Table, u: Table, a: IpAddr, len: nat, floor: nat)
    requires floor <= len <= Width(a.family)
    requires forall l :: floor <= l <= len ==>
      var p := NetOf(a, l);
      (p in t <==> p in u) && (p in t ==> t[p] == u[p])
    ensures LookupWithin(t, a, len, floor) == LookupWithin(u, a, len, floor)
  {
    var p := NetOf(a, len);
    assert (p in t <==> p in u) && (p in t ==> t[p] == u[p]);
    if p !in t && len > floor {
      LookupWithinAgrees(t, u, a, len - 1, floor);
    }
  }

  /** A long lookup is a short one with a fallback to the lengths below it. */
  lemma {:induction false} LookupWithinSplits(t: Table, a: IpAddr, len: nat, mid: nat)
    requires 0 < mid <= len <= Width(a.family)
    ensures LookupWithin(t, a, len, 0) ==
            if LookupWithin(t, a, len, mid).Some? then LookupWithin(t, a, len, mid)
            else LookupWithin(t, a, mid - 1, 0)
  {
    if NetOf(a, len) !in t && len > mid {
      LookupWithinSplits(t, a, len - 1, mid);
    }
  }
}
