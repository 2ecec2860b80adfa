/** Comparing the addresses of the probe and of the control (pkg/minipipeline/dnsdiff.go). */
module DnsDiff {
  import opened Optional
  import Sets

  type Bits = bv2

  const IN_MEASUREMENT: Bits := 1
  const IN_CONTROL: Bits := 2
  const IN_BOTH: Bits := 3

  /** The number of an address's autonomous system; `None` when the lookup fails. */
  type Lookup = string -> Option<int>

  function ASNOf(lookup: Lookup, ip: string): Option<int> {
    match lookup(ip)
    case Some(asn) => if asn > 0 then Some(asn) else None
    case None => None
  }

  ghost function ASNs(lookup: Lookup, s: set<string>): set<int> {
    set ip | ip in s && ASNOf(lookup, ip).Some? :: ASNOf(lookup, ip).value
  }

  /** The entry of the map for a key, where absent is zero. */
  function Flags<K>(m: map<K, Bits>, k: K): Bits {
    if k in m then m[k] else 0
  }

  /** `for key := range keys { m[key] |= flag }` */
  method Mark<K(==)>(m: map<K, Bits>, keys: set<K>, flag: Bits) returns (r: map<K, Bits>)
    ensures forall k {:trigger Flags(r, k)} :: Flags(r, k) == if k in keys then Flags(m, k) | flag else Flags(m, k)
  {
    r := m;
    var left := keys;
    while left != {}
      invariant left <= keys
      invariant forall k {:trigger Flags(r, k)} :: Flags(r, k) == if k in keys && k !in left then Flags(m, k) | flag else Flags(m, k)
      decreases left
    {
      var k :| k in left;
      left := left - {k};
      ghost var before := r;
      r := r[k := Flags(r, k) | flag];
      assert forall j {:trigger Flags(r, j)} :: j != k ==> Flags(r, j) == Flags(before, j);
      assert Flags(before, k) == Flags(m, k);
    }
  }

  /** The keys that have both flags, except the one that stands for no value. */
  method InBoth<K(!new,==)>(less: (K, K) -> bool, m: map<K, Bits>, nothing: K) returns (r: set<K>)
    ensures forall k :: k in r <==> k != nothing && Flags(m, k) & IN_BOTH == IN_BOTH
  {
    var state := new Sets.Set(less, []);
    var left := m.Keys;
    while left != {}
      invariant left <= m.Keys && fresh(state)
      invariant forall k :: k in state.Elements() <==>
                  k in m && k !in left && k != nothing && Flags(m, k) & IN_BOTH == IN_BOTH
      decreases left
    {
      var k :| k in left;
      left := left - {k};
      if k != nothing && m[k] & IN_BOTH == IN_BOTH {
        state.Add([k]);
      }
    }
    r := state.Elements();
  }

  /** Addresses in both sets, and not the empty string. */
  method FindCommonIPAddressIntersection(measurement: set<string>, control: set<string>) returns (r: set<string>)
    ensures r == measurement * control - {""}
  {
    var ipmap := Mark(map[], measurement, IN_MEASUREMENT);
    ipmap := Mark(ipmap, control, IN_CONTROL);
    r := InBoth(Sets.StringLess, ipmap, "");
    assert forall k {:trigger Flags(ipmap, k)} :: Flags(ipmap, k) & IN_BOTH == IN_BOTH <==> k in measurement && k in control;
  }

  method LookupASNs(lookup: Lookup, s: set<string>) returns (r: set<int>)
    ensures r == ASNs(lookup, s)
  {
    r := {};
    var left := s;
    while left != {}
      invariant left <= s
      invariant r == ASNs(lookup, s - left)
      decreases left
    {
      var ip :| ip in left;
      ghost var before := left;
      left := left - {ip};
      assert s - left == (s - before) + {ip};
      var asn := ASNOf(lookup, ip);
      ASNsAdd(lookup, s - before, ip);
      if asn.Some? {
        r := r + {asn.value};
      }
    }
    assert s - left == s;
  }

  lemma ASNsAdd(lookup: Lookup, s: set<string>, ip: string)
    ensures ASNs(lookup, s + {ip})
            == ASNs(lookup, s) + (if ASNOf(lookup, ip).Some? then {ASNOf(lookup, ip).value} else {})
  {
    hide ASNOf;
  }

  /** Autonomous systems with an address in either set. */
  method FindCommonASNsIntersection(lookup: Lookup, measurement: set<string>, control: set<string>) returns (r: set<int>)
    ensures r == ASNs(lookup, measurement) * ASNs(lookup, control)
  {
    hide ASNs;
    var measured := LookupASNs(lookup, measurement);
    var controlled := LookupASNs(lookup, control);
    var asnmap := Mark(map[], measured, IN_MEASUREMENT);
    asnmap := Mark(asnmap, controlled, IN_CONTROL);
    r := InBoth(Sets.IntLess, asnmap, 0);
    assert forall k {:trigger Flags(asnmap, k)} :: Flags(asnmap, k) & IN_BOTH == IN_BOTH <==> k in measured && k in controlled;
    ASNsArePositive(lookup, measurement);
  }

  lemma ASNsArePositive(lookup: Lookup, s: set<string>)
    ensures forall asn :: asn in ASNs(lookup, s) ==> asn > 0
  {
  }
}
