/** Which lists of node ports an update or a create refuses, told from the list, what was published
    before and what other Services hold. */
module NodePortLists {
  import opened Arithmetic
  import opened Wrappers
  import opened ServiceStrategy
  import opened ServiceAllocation

  // ----- where a list is refused -----

  /** The ports before this one can be numbered, and this one cannot. */
  predicate FailsAt(ports: seq<Port>, previous: seq<Port>, used: set<int>, j: nat, e: Problem)
    requires j < |ports|
  {
    var init := Numbered(ports[..j], previous, used);
    init.Ok? && Choose(ports[j], previous, used + PortSet(init.value)) == Err(e)
  }

  /** A list is refused exactly where its first failing port is, and for that port's reason. */
  lemma RefusedIff(ports: seq<Port>, previous: seq<Port>, used: set<int>, e: Problem)
    ensures Numbered(ports, previous, used) == Err(e) <==> exists j :: 0 <= j < |ports| && FailsAt(ports, previous, used, j, e)
  {
    if j :| 0 <= j < |ports| && FailsAt(ports, previous, used, j, e) {
      assert ports[..j + 1][..j] == ports[..j];
      RefusedAt(ports, previous, used, j + 1);
    }
    if Numbered(ports, previous, used) == Err(e) {
      var j := FirstFailing(ports, previous, used, e);
    }
  }

  lemma {:induction false} FirstFailing(ports: seq<Port>, previous: seq<Port>, used: set<int>, e: Problem) returns (j: nat)
    requires Numbered(ports, previous, used) == Err(e)
    ensures j < |ports| && FailsAt(ports, previous, used, j, e)
  {
    var n := |ports| - 1;
    if Numbered(ports[..n], previous, used).Ok? {
      j := n;
    } else {
      j := FirstFailing(ports[..n], previous, used, e);
      assert ports[..n][..j] == ports[..j];
    }
  }

  // ----- handing out the lowest open number, again and again -----

  /** The numbers of the range below this one that are not taken. */
  function OpenBelow(taken: set<int>, n: int): set<int> {
    set m | FIRST_PORT <= m < n && m !in taken
  }

  /** Numbers that were open when handed out, with none of the open ones below the highest of
      them left over. */
  ghost predicate Packed(taken: set<int>, handed: set<int>) {
    && (forall h :: h in handed ==> FIRST_PORT <= h <= LAST_PORT && h !in taken)
    && forall h, m :: h in handed && FIRST_PORT <= m < h ==> m in taken || m in handed
  }

  ghost predicate AllBelow(used: set<int>, n: int) {
    forall m :: FIRST_PORT <= m < n ==> m in used
  }

  lemma LowestIff(used: set<int>, n: int)
    requires FIRST_PORT <= n <= LAST_PORT
    ensures LowestFree(used, FIRST_PORT, LAST_PORT) == Some(n) <==> n !in used && AllBelow(used, n)
  {
    if n !in used && AllBelow(used, n) { LowestFrom(used, FIRST_PORT, LAST_PORT, n); }
  }

  lemma {:induction false} LowestFrom(used: set<int>, low: int, high: int, n: int)
    requires low <= n <= high && n !in used && forall m :: low <= m < n ==> m in used
    ensures LowestFree(used, low, high) == Some(n)
    decreases n - low
  {
    if low < n { LowestFrom(used, low + 1, high, n); }
  }

  /** Everything handed out lies below any number that is still open. */
  lemma HandedAreBelow(taken: set<int>, handed: set<int>, n: int)
    requires Packed(taken, handed) && FIRST_PORT <= n && n !in taken && n !in handed
    ensures handed <= OpenBelow(taken, n)
    ensures OpenBelow(taken, n) <= handed <==> AllBelow(taken + handed, n)
  {
    forall h | h in handed ensures h in OpenBelow(taken, n) {
      assert n < h ==> n in taken || n in handed;
    }
    if AllBelow(taken + handed, n) {
      forall m | m in OpenBelow(taken, n) ensures m in handed { assert m in taken + handed; }
    }
    if OpenBelow(taken, n) <= handed {
      forall m | FIRST_PORT <= m < n ensures m in taken + handed { assert m in OpenBelow(taken, n) || m in taken; }
    }
  }

  /** The next number handed out is the open one below which as many are open as were handed
      out before. */
  lemma TurnIsLowest(taken: set<int>, handed: set<int>, n: int)
    requires Packed(taken, handed) && FIRST_PORT <= n <= LAST_PORT && n !in taken
    ensures |OpenBelow(taken, n)| == |handed| <==> LowestFree(taken + handed, FIRST_PORT, LAST_PORT) == Some(n)
  {
    LowestIff(taken + handed, n);
    if n in handed {
      FewerOpen(taken, handed, n);
    } else {
      HandedAreBelow(taken, handed, n);
      SubsetSize(handed, OpenBelow(taken, n));
    }
  }

  lemma FewerOpen(taken: set<int>, handed: set<int>, n: int)
    requires Packed(taken, handed) && n in handed
    ensures |OpenBelow(taken, n)| < |handed|
  {
    assert OpenBelow(taken, n) <= handed - {n};
    SubsetSize(OpenBelow(taken, n), handed - {n});
  }

  lemma NoneIff(used: set<int>)
    ensures LowestFree(used, FIRST_PORT, LAST_PORT).None? <==> AllBelow(used, LAST_PORT + 1)
  {
    var free := LowestFree(used, FIRST_PORT, LAST_PORT);
    if free.Some? { assert free.value !in used; }
  }

  /** Nothing is left exactly when as many numbers are open as have been handed out. */
  lemma FullIff(taken: set<int>, handed: set<int>)
    requires Packed(taken, handed)
    ensures LowestFree(taken + handed, FIRST_PORT, LAST_PORT).None? <==> |OpenBelow(taken, LAST_PORT + 1)| <= |handed|
  {
    var open := OpenBelow(taken, LAST_PORT + 1);
    NoneIff(taken + handed);
    forall h | h in handed ensures h in open {
    }
    SubsetSize(handed, open);
    if AllBelow(taken + handed, LAST_PORT + 1) {
      forall m | m in open ensures m in handed { assert m in taken + handed; }
    }
    if open <= handed {
      forall m | FIRST_PORT <= m < LAST_PORT + 1 ensures m in taken + handed { assert m in open || m in taken; }
    }
  }

  lemma HandOne(taken: set<int>, handed: set<int>, n: int)
    requires Packed(taken, handed) && LowestFree(taken + handed, FIRST_PORT, LAST_PORT) == Some(n)
    ensures Packed(taken, handed + {n}) && |handed + {n}| == |handed| + 1
  {
    assert n !in taken + handed;
    forall m | FIRST_PORT <= m < n ensures m in taken || m in handed { assert m in taken + handed; }
  }

  // ----- which numbers new ports are handed -----

  /** The numbers the ports of a list ask for. */
  function WantedSet(ports: seq<Port>, previous: seq<Port>): set<int> {
    set i | 0 <= i < |ports| && Wanted(ports[i], previous).Some? :: Wanted(ports[i], previous).value
  }

  /** How many ports of a list ask for none. */
  function NewCount(ports: seq<Port>, previous: seq<Port>): nat {
    if ports == [] then 0
    else NewCount(ports[..|ports| - 1], previous) + (if Wanted(ports[|ports| - 1], previous).None? then 1 else 0)
  }

  /** The numbers that are not open to the new ports of a list: held elsewhere or asked for. */
  function Reserved(ports: seq<Port>, previous: seq<Port>, used: set<int>): set<int> { used + WantedSet(ports, previous) }

  /** A new port after these is handed the number: below it as many numbers are open as there
      are new ports before. */
  predicate NextTurn(ports: seq<Port>, previous: seq<Port>, used: set<int>, n: int) {
    && FIRST_PORT <= n <= LAST_PORT && n !in Reserved(ports, previous, used)
    && |OpenBelow(Reserved(ports, previous, used), n)| == NewCount(ports, previous)
  }

  ghost predicate HandedBefore(ports: seq<Port>, previous: seq<Port>, used: set<int>, j: nat, n: int)
    requires j <= |ports|
  {
    exists i :: 0 <= i < j && HandedAt(ports, previous, used, i, n)
  }

  predicate HandedAt(ports: seq<Port>, previous: seq<Port>, used: set<int>, i: nat, n: int)
    requires i < |ports|
  {
    Wanted(ports[i], previous).None? && NextTurn(ports[..i], previous, used, n)
  }

  /** The numbers handed out, as the list is gone through. */
  ghost function Handed(ports: seq<Port>, previous: seq<Port>, used: set<int>): set<int>
    requires Numbered(ports, previous, used).Ok?
  {
    if ports == [] then {}
    else
      var init, last := ports[..|ports| - 1], ports[|ports| - 1];
      var given := Numbered(init, previous, used).value;
      Handed(init, previous, used)
      + (if Wanted(last, previous).Some? then {} else {Choose(last, previous, used + PortSet(given)).value})
  }

  lemma WantedLast(ports: seq<Port>, port: Port, previous: seq<Port>)
    ensures WantedSet(ports + [port], previous)
            == WantedSet(ports, previous) + (if Wanted(port, previous).Some? then {Wanted(port, previous).value} else {})
  {
    var more := ports + [port];
    forall n | n in WantedSet(ports, previous) ensures n in WantedSet(more, previous) {
      var i :| 0 <= i < |ports| && Wanted(ports[i], previous) == Some(n);
      assert more[i] == ports[i];
    }
    if Wanted(port, previous).Some? { assert more[|ports|] == port; }
  }

  /** What has been given uses exactly what was taken and what was handed out, and what was
      handed out is so many numbers, packed. */
  ghost predicate WellHanded(used: set<int>, given: set<int>, taken: set<int>, handed: set<int>, count: nat) {
    |handed| == count && Packed(taken, handed) && used + given == taken + handed
  }

  lemma OneHanded(used: set<int>, given: set<int>, taken: set<int>, handed: set<int>, count: nat, n: int)
    requires WellHanded(used, given, taken, handed, count) && LowestFree(taken + handed, FIRST_PORT, LAST_PORT) == Some(n)
    ensures WellHanded(used, given + {n}, taken, handed + {n}, count + 1)
  {
    HandOne(taken, handed, n);
    assert used + (given + {n}) == (used + given) + {n};
  }

  lemma OneTaken(used: set<int>, given: set<int>, taken: set<int>, handed: set<int>, count: nat, n: int)
    requires WellHanded(used, given, taken, handed, count) && n !in handed
    ensures WellHanded(used, given + {n}, taken + {n}, handed, count)
  {
    assert used + (given + {n}) == (used + given) + {n};
  }

  ghost predicate HandsWell(ports: seq<Port>, previous: seq<Port>, used: set<int>)
    requires Numbered(ports, previous, used).Ok?
  {
    WellHanded(used, PortSet(Numbered(ports, previous, used).value), Reserved(ports, previous, used), Handed(ports, previous, used),
               NewCount(ports, previous))
  }

  lemma {:induction false} NumberedHands(ports: seq<Port>, previous: seq<Port>, used: set<int>)
    requires Numbered(ports, previous, used).Ok?
    ensures HandsWell(ports, previous, used)
  {
    if ports == [] {
      NothingHanded(previous, used);
    } else {
      NumberedHands(ports[..|ports| - 1], previous, used);
      HandsOne(ports, previous, used);
    }
  }

  lemma NothingHanded(previous: seq<Port>, used: set<int>)
    ensures HandsWell([], previous, used)
  {
    assert PortSet([]) == {} && WantedSet([], previous) == {};
  }

  lemma HandsOne(ports: seq<Port>, previous: seq<Port>, used: set<int>)
    requires ports != [] && Numbered(ports, previous, used).Ok? && HandsWell(ports[..|ports| - 1], previous, used)
    ensures HandsWell(ports, previous, used)
  {
    if Wanted(ports[|ports| - 1], previous).None? {
      HandsNew(ports, previous, used);
    } else {
      HandsWanted(ports, previous, used);
    }
  }

  lemma HandsNew(ports: seq<Port>, previous: seq<Port>, used: set<int>)
    requires ports != [] && Numbered(ports, previous, used).Ok? && HandsWell(ports[..|ports| - 1], previous, used)
    requires Wanted(ports[|ports| - 1], previous).None?
    ensures HandsWell(ports, previous, used)
  {
    var init := ports[..|ports| - 1];
    var given, taken := PortSet(Numbered(init, previous, used).value), Reserved(init, previous, used);
    ReservedLast(ports, previous, used);
    UsedLast(ports, previous, used);
    assert taken + {} == taken;
    OneHanded(used, given, taken, Handed(init, previous, used), NewCount(init, previous),
              Choose(ports[|ports| - 1], previous, used + given).value);
  }

  lemma HandsWanted(ports: seq<Port>, previous: seq<Port>, used: set<int>)
    requires ports != [] && Numbered(ports, previous, used).Ok? && HandsWell(ports[..|ports| - 1], previous, used)
    requires Wanted(ports[|ports| - 1], previous).Some?
    ensures HandsWell(ports, previous, used)
  {
    var init := ports[..|ports| - 1];
    var given, handed := PortSet(Numbered(init, previous, used).value), Handed(init, previous, used);
    ReservedLast(ports, previous, used);
    UsedLast(ports, previous, used);
    assert handed + {} == handed;
    OneTaken(used, given, Reserved(init, previous, used), handed, NewCount(init, previous), Wanted(ports[|ports| - 1], previous).value);
  }

  lemma ReservedLast(ports: seq<Port>, previous: seq<Port>, used: set<int>)
    requires ports != []
    ensures var init, wanted := ports[..|ports| - 1], Wanted(ports[|ports| - 1], previous);
            Reserved(ports, previous, used) == Reserved(init, previous, used) + (if wanted.Some? then {wanted.value} else {})
  {
    assert ports == ports[..|ports| - 1] + [ports[|ports| - 1]];
    WantedLast(ports[..|ports| - 1], ports[|ports| - 1], previous);
  }

  /** The last port adds the number chosen for it. */
  ghost predicate UsesLast(ports: seq<Port>, previous: seq<Port>, used: set<int>)
    requires ports != [] && Numbered(ports, previous, used).Ok?
  {
    var given := PortSet(Numbered(ports[..|ports| - 1], previous, used).value);
    PortSet(Numbered(ports, previous, used).value) == given + {Choose(ports[|ports| - 1], previous, used + given).value}
  }

  lemma UsedLast(ports: seq<Port>, previous: seq<Port>, used: set<int>)
    requires ports != [] && Numbered(ports, previous, used).Ok?
    ensures UsesLast(ports, previous, used)
  {
    var given, port := Numbered(ports[..|ports| - 1], previous, used).value, ports[|ports| - 1];
    PortSetGrows(given, port.(nodePort := Some(Choose(port, previous, used + PortSet(given)).value)));
  }

  /** A number was handed to an earlier new port exactly when it was its turn there. */
  lemma {:induction false} HandedIff(ports: seq<Port>, previous: seq<Port>, used: set<int>, j: nat, n: int)
    requires j <= |ports| && Numbered(ports[..j], previous, used).Ok?
    ensures n in Handed(ports[..j], previous, used) <==> HandedBefore(ports, previous, used, j, n)
  {
    if j > 0 {
      assert ports[..j][..j - 1] == ports[..j - 1];
      HandedIff(ports, previous, used, j - 1, n);
      HandedLast(ports[..j], previous, used, n);
      BeforeLast(ports, previous, used, j, n);
    }
  }

  lemma BeforeLast(ports: seq<Port>, previous: seq<Port>, used: set<int>, j: nat, n: int)
    requires 0 < j <= |ports|
    ensures HandedBefore(ports, previous, used, j, n)
            <==> HandedBefore(ports, previous, used, j - 1, n) || HandedAt(ports, previous, used, j - 1, n)
  {
  }

  lemma HandedLast(ports: seq<Port>, previous: seq<Port>, used: set<int>, n: int)
    requires ports != [] && Numbered(ports, previous, used).Ok?
    ensures var init, port := ports[..|ports| - 1], ports[|ports| - 1];
            n in Handed(ports, previous, used)
            <==> n in Handed(init, previous, used) || (Wanted(port, previous).None? && NextTurn(init, previous, used, n))
  {
    var init := ports[..|ports| - 1];
    NumberedHands(init, previous, used);
    var taken, handed := Reserved(init, previous, used), Handed(init, previous, used);
    if FIRST_PORT <= n <= LAST_PORT && n !in taken { TurnIsLowest(taken, handed, n); }
  }

  // ----- exactly when a list is refused -----

  /** A stated or kept number is refused exactly when another Service holds it, an earlier port
      wanted it, or it was an earlier new port's turn to be handed it. */
  lemma PortTakenIff(ports: seq<Port>, previous: seq<Port>, used: set<int>, j: nat)
    requires j < |ports| && Numbered(ports[..j], previous, used).Ok?
    requires Wanted(ports[j], previous).Some? && !Renumbered(ports[j], previous)
    ensures var n := Wanted(ports[j], previous).value;
            FailsAt(ports, previous, used, j, PortTaken)
            <==> n in Reserved(ports[..j], previous, used) || HandedBefore(ports, previous, used, j, n)
  {
    NumberedHands(ports[..j], previous, used);
    HandedIff(ports, previous, used, j, Wanted(ports[j], previous).value);
  }

  /** A new port is refused exactly when no more numbers are open than there are new ports
      before it. */
  lemma ExhaustedIff(ports: seq<Port>, previous: seq<Port>, used: set<int>, j: nat)
    requires j < |ports| && Numbered(ports[..j], previous, used).Ok? && Wanted(ports[j], previous).None?
    ensures FailsAt(ports, previous, used, j, Exhausted)
            <==> |OpenBelow(Reserved(ports[..j], previous, used), LAST_PORT + 1)| <= NewCount(ports[..j], previous)
  {
    NumberedHands(ports[..j], previous, used);
    FullIff(Reserved(ports[..j], previous, used), Handed(ports[..j], previous, used));
  }

  /** What one port of a list must meet to be numbered, given those before it. */
  ghost predicate Numberable(ports: seq<Port>, previous: seq<Port>, used: set<int>, j: nat)
    requires j < |ports|
  {
    && !Renumbered(ports[j], previous)
    && match Wanted(ports[j], previous)
       case Some(n) => n !in Reserved(ports[..j], previous, used) && !HandedBefore(ports, previous, used, j, n)
       case None => |OpenBelow(Reserved(ports[..j], previous, used), LAST_PORT + 1)| > NewCount(ports[..j], previous)
  }

  /** A list is numbered exactly when each of its ports can be. */
  lemma NumberedIff(ports: seq<Port>, previous: seq<Port>, used: set<int>)
    ensures Numbered(ports, previous, used).Ok? <==> forall j :: 0 <= j < |ports| ==> Numberable(ports, previous, used, j)
  {
    PrefixNumberedIff(ports, previous, used, |ports|);
    assert ports[..|ports|] == ports;
  }

  lemma {:induction false} PrefixNumberedIff(ports: seq<Port>, previous: seq<Port>, used: set<int>, k: nat)
    requires k <= |ports|
    ensures Numbered(ports[..k], previous, used).Ok? <==> forall j :: 0 <= j < k ==> Numberable(ports, previous, used, j)
  {
    if k > 0 {
      assert ports[..k][..k - 1] == ports[..k - 1];
      PrefixNumberedIff(ports, previous, used, k - 1);
      if Numbered(ports[..k - 1], previous, used).Ok? { LastNumberedIff(ports, previous, used, k - 1); }
    }
  }

  lemma LastNumberedIff(ports: seq<Port>, previous: seq<Port>, used: set<int>, j: nat)
    requires j < |ports| && Numbered(ports[..j], previous, used).Ok?
    ensures Numbered(ports[..j + 1], previous, used).Ok? <==> Numberable(ports, previous, used, j)
  {
    assert ports[..j + 1][..j] == ports[..j] && ports[..j + 1][j] == ports[j];
    if Wanted(ports[j], previous).None? {
      ExhaustedIff(ports, previous, used, j);
    } else if !Renumbered(ports[j], previous) {
      PortTakenIff(ports, previous, used, j);
    }
  }

  /** The kept numbers are nobody else's and no two are the same. */
  ghost predicate WantsAreFree(ports: seq<Port>, previous: seq<Port>, used: set<int>) {
    && (forall i :: 0 <= i < |ports| ==> !Renumbered(ports[i], previous))
    && (forall i :: 0 <= i < |ports| && Wanted(ports[i], previous).Some? ==> Wanted(ports[i], previous).value !in used)
    && forall i, j :: 0 <= i < j < |ports| && Wanted(ports[i], previous).Some? ==> Wanted(ports[i], previous) != Wanted(ports[j], previous)
  }

  /** No port that wants a number comes after one that does not. */
  ghost predicate KeptFirst(ports: seq<Port>, previous: seq<Port>) {
    forall i, j :: 0 <= i < j < |ports| && Wanted(ports[i], previous).None? ==> Wanted(ports[j], previous).None?
  }

  /** With its kept ports first a list is refused only when the range is exhausted. */
  lemma KeptFirstSucceeds(ports: seq<Port>, previous: seq<Port>, used: set<int>)
    requires WantsAreFree(ports, previous, used) && KeptFirst(ports, previous)
    ensures Numbered(ports, previous, used).Ok? || Numbered(ports, previous, used) == Err(Exhausted)
  {
    var r := Numbered(ports, previous, used);
    if r.Err? && r.error != Exhausted {
      RefusedIff(ports, previous, used, r.error);
      var j :| 0 <= j < |ports| && FailsAt(ports, previous, used, j, r.error);
      PortTakenIff(ports, previous, used, j);
      NoneHanded(ports, previous, used, j);
      assert false;
    }
  }

  /** Nothing is handed out before the first new port. */
  lemma NoneHanded(ports: seq<Port>, previous: seq<Port>, used: set<int>, j: nat)
    requires j < |ports| && KeptFirst(ports, previous) && Wanted(ports[j], previous).Some?
    ensures forall n :: !HandedBefore(ports, previous, used, j, n)
  {
  }

  /** A new port listed before a kept one whose number nobody else holds: the update is refused
      exactly when the kept number is the lowest free one. */
  lemma NewPortFirst(added: Port, kept: Port, previous: seq<Port>, used: set<int>)
    requires Wanted(added, previous).None? && Wanted(kept, previous).Some? && !Renumbered(kept, previous)
    requires FIRST_PORT <= Wanted(kept, previous).value <= LAST_PORT && Wanted(kept, previous).value !in used
    ensures Numbered([added, kept], previous, used)
            == var free := LowestFree(used, FIRST_PORT, LAST_PORT);
               if Wanted(kept, previous) == free then Err(PortTaken)
               else Ok([added.(nodePort := free), kept.(nodePort := Wanted(kept, previous))])
  {
    var free := LowestFree(used, FIRST_PORT, LAST_PORT);
    var one := added.(nodePort := free);
    var two := kept.(nodePort := Wanted(kept, previous));
    assert [added, kept][..1] == [added] && [added][..0] == [] && [added, kept][1] == kept;
    assert used + PortSet([]) == used;
    assert Numbered([added], previous, used) == Ok([] + [one]);
    assert [] + [one] == [one] && [one] + [two] == [one, two];
    PortSetGrows([], one);
    assert PortSet([one]) == {free.value};
    assert Choose(kept, previous, used + {free.value})
        == if Wanted(kept, previous) == free then Err(PortTaken) else Ok(two.nodePort.value);
  }

  /** A create that asks for no address and states nothing wrong is refused exactly when all
      addresses are taken or, for a NodePort, one of its ports cannot be numbered. */
  lemma CreateFailsIff(spec: Spec, ips: set<int>, others: set<int>)
    requires spec.kind != ExternalName && spec.clusterIp in {Absent, Empty}
    requires spec.clusterIps.None? && spec.families.None? && spec.policy.None?
    ensures Created(spec, ips, others).Err?
            <==> || (forall n :: FIRST_IP <= n <= LAST_IP ==> n in ips)
                 || (spec.kind == NodePort && exists j :: 0 <= j < |spec.ports| && !Numberable(spec.ports, [], others, j))
  {
    NumberedIff(spec.ports, [], others);
  }
}
