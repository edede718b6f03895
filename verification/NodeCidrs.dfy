/** The node CIDR ledger: reservations of equal-sized subnets of one pool, written before
    the Node that uses them. */
module NodeCidrs {
  import opened Arithmetic
  import opened Wrappers
  import opened Ipv4
  import opened Names

  /** CIDR text as it is parsed: the canonical form of a network, or anything else. */
  datatype Text = Canonical(net: Net) | Junk(text: string)
  type Reservations = map<string, Text>

  datatype Problem =
    | Corrupt
    | Exhausted
    | BadName
    | BadSubnet
    | ReservationImmutable
    | ReservedByAnother
    | BadSpec
    | NodeCidrImmutable
    | NodeExists
    | NodeMissing
    | NotCommitted

  datatype Allocations = Allocations(version: nat, clusterCidr: Text, nodePrefix: nat, reservations: Reservations) {

    /** The pool, if the configuration is one the server accepts. */
    function Pool(): Option<Net> {
      if clusterCidr.Junk? || !IsNet(clusterCidr.net) then None
      else
        var pool := clusterCidr.net;
        if || version != 1
           || pool.addr != Base(pool)
           || !IsPrivate(Base(pool)) || !IsPrivate(Last(pool))
           || nodePrefix < pool.prefix || nodePrefix > 30 || nodePrefix - pool.prefix > 12
           || Contains(pool, Base(SERVICES)) || Contains(SERVICES, Base(pool))
        then None
        else Some(pool)
    }

    /** A canonical subnet of the pool with the node prefix. */
    predicate IsSubnet(cidr: Text) {
      && cidr.Canonical? && IsNet(cidr.net)
      && cidr.net.prefix == nodePrefix
      && cidr.net.addr == Base(cidr.net)
      && Pool().Some? && Contains(Pool().value, cidr.net.addr)
    }

    /** How many subnets the pool has. */
    function Count(): nat
      requires Pool().Some?
    {
      Pow2(nodePrefix - Pool().value.prefix)
    }

    function SubnetAt(i: nat): Text
      requires Pool().Some?
    {
      Canonical(Subnet(Pool().value, nodePrefix, i))
    }

    /** Every reservation is a subnet of the pool, and no two names share one. */
    ghost predicate Sound() {
      && Pool().Some?
      && (forall name | name in reservations :: ValidName(name) && IsSubnet(reservations[name]))
      && Injective()
    }

    ghost predicate Injective() {
      forall a, b | a in reservations && b in reservations && reservations[a] == reservations[b] :: a == b
    }

    lemma PoolIsPool()
      requires Pool().Some?
      ensures IsPool(Pool().value, nodePrefix)
    {
    }

    /** The pool is cut exactly into the subnets `SubnetAt(0)`, `SubnetAt(1)`, and so on. */
    lemma SubnetsCutThePool(i: nat)
      requires Pool().Some? && i < Count()
      ensures IsSubnet(SubnetAt(i)) && Contains(Pool().value, Last(SubnetAt(i).net))
    {
      PoolIsPool();
      SubnetInPool(Pool().value, nodePrefix, i);
    }

    lemma IndexOf(cidr: Text) returns (i: nat)
      requires IsSubnet(cidr)
      ensures i < Count() && cidr == SubnetAt(i)
    {
      PoolIsPool();
      i := IndexInPool(Pool().value, nodePrefix, cidr.net);
    }

    /** Different reservations never share an address. */
    lemma ReservationsAreDisjoint(a: string, b: string)
      requires Sound() && a in reservations && b in reservations && a != b
      ensures Disjoint(reservations[a].net, reservations[b].net)
    {
      SameSizeDisjoint(reservations[a].net, reservations[b].net);
    }

    /** Check the whole ledger, one reservation at a time. */
    method Validate() returns (ok: bool)
      ensures ok <==> Sound() && |reservations| <= Count()
    {
      if Pool().None? { return false; }
      if |reservations| > Count() { return false; }
      var used: set<Text> := {};
      var left := reservations.Keys;
      while left != {}
        invariant left <= reservations.Keys
        invariant used == set name | name in reservations && name !in left :: reservations[name]
        invariant forall name | name in reservations && name !in left :: ValidName(name) && IsSubnet(reservations[name])
        invariant forall a, b | a in reservations && b in reservations && a !in left && b !in left
                    && reservations[a] == reservations[b] :: a == b
        decreases left
      {
        var name :| name in left;
        if !ValidName(name) || !IsSubnet(reservations[name]) { return false; }
        if reservations[name] in used {
          var other :| other in reservations && other !in left && reservations[other] == reservations[name];
          return false;
        }
        used := used + {reservations[name]};
        left := left - {name};
      }
      return true;
    }

    /** A sound ledger is never too long: reservations name different subnets. */
    lemma SoundIsShort()
      requires Sound()
      ensures |reservations| <= Count()
      ensures |reservations| == Count() ==> forall i | 0 <= i < Count() :: SubnetAt(i) in reservations.Values
    {
      var all := set i | 0 <= i < Count() :: SubnetAt(i);
      SetOfSubnets(Count());
      forall name | name in reservations ensures reservations[name] in all { var i := IndexOf(reservations[name]); }
      assert reservations.Values <= all;
      ValuesOfInjective(reservations);
      SubsetSize(reservations.Values, all);
    }

    lemma {:induction false} SetOfSubnets(n: nat)
      requires Pool().Some?
      ensures |set i | 0 <= i < n :: SubnetAt(i)| <= n
    {
      if n > 0 {
        SetOfSubnets(n - 1);
        OneMoreSubnet(n - 1);
      }
    }

    lemma OneMoreSubnet(n: nat)
      requires Pool().Some?
      ensures (set i | 0 <= i < n + 1 :: SubnetAt(i)) == (set i | 0 <= i < n :: SubnetAt(i)) + {SubnetAt(n)}
    {
    }

    /** The reservation of a name, or the lowest free subnet; on a sound ledger it fails
        exactly when the name is new and every subnet of the pool is reserved. */
    method Next(name: string) returns (r: Result<Text, Problem>)
      ensures !Sound() ==> r == Err(Corrupt)
      ensures Sound() && name in reservations ==> r == Ok(reservations[name])
      ensures Sound() && name !in reservations && r.Ok? ==>
                exists i: nat | i < Count() ::
                  && r.value == SubnetAt(i) && SubnetAt(i) !in reservations.Values
                  && forall j | 0 <= j < i :: SubnetAt(j) in reservations.Values
      ensures Sound() && r.Err? ==> r.error == Exhausted
      ensures Sound() ==>
                (r.Err? <==> name !in reservations && forall i | 0 <= i < Count() :: SubnetAt(i) in reservations.Values)
      ensures Sound() && r.Err? ==> |reservations| == Count()
    {
      if Sound() { SoundIsShort(); }
      var valid := Validate();
      if !valid { return Err(Corrupt); }
      if name in reservations { return Ok(reservations[name]); }
      var used := reservations.Values;
      var i := 0;
      while i < Count()
        invariant 0 <= i <= Count()
        invariant forall j | 0 <= j < i :: SubnetAt(j) in used
      {
        if SubnetAt(i) !in used { return Ok(SubnetAt(i)); }
        i := i + 1;
      }
      AllReserved();
      return Err(Exhausted);
    }

    lemma AllReserved()
      requires Sound() && forall i | 0 <= i < Count() :: SubnetAt(i) in reservations.Values
      ensures |reservations| == Count()
    {
      SoundIsShort();
      DistinctSubnets(Count());
      var all := set i | 0 <= i < Count() :: SubnetAt(i);
      SubsetSize(all, reservations.Values);
      ValuesOfInjective(reservations);
    }

    lemma {:induction false} DistinctSubnets(n: nat)
      requires Pool().Some?
      ensures |set i | 0 <= i < n :: SubnetAt(i)| == n
    {
      if n > 0 {
        DistinctSubnets(n - 1);
        var before := set i | 0 <= i < n - 1 :: SubnetAt(i);
        forall i | 0 <= i < n - 1 ensures SubnetAt(i) != SubnetAt(n - 1) { SubnetsDiffer(Pool().value, nodePrefix, i, n - 1); }
        assert (set i | 0 <= i < n :: SubnetAt(i)) == before + {SubnetAt(n - 1)};
      }
    }
  }

  lemma {:induction false} ValuesOfInjective(m: Reservations)
    requires forall a, b | a in m && b in m && m[a] == m[b] :: a == b
    ensures |m.Values| == |m|
    decreases |m|
  {
    if m != map[] {
      var name :| name in m;
      var rest := m - {name};
      ValuesOfInjective(rest);
      OneMoreValue(m, name);
      assert m.Keys == rest.Keys + {name};
    } else {
      assert m.Values == {};
    }
  }

  lemma OneMoreValue(m: Reservations, name: string)
    requires name in m && forall a, b | a in m && b in m && m[a] == m[b] :: a == b
    ensures m.Values == (m - {name}).Values + {m[name]} && m[name] !in (m - {name}).Values
  {
    var rest := m - {name};
    forall v | v in m.Values ensures v in rest.Values + {m[name]} {
      var key :| key in m && m[key] == v;
      if key != name { assert key in rest && rest[key] == v; }
    }
    forall v | v in rest.Values ensures v in m.Values && v != m[name] {
      var key :| key in rest && rest[key] == v;
      assert key in m && m[key] == v;
    }
  }
}
