/** The plasma arena's bump allocator over one fixed mapping. */
module Arena {
  import opened Bytes

  newtype u64 = x: int | 0 <= x < 0x1_0000_0000_0000_0000

  const U64_MAX: u64 := 0xFFFF_FFFF_FFFF_FFFF
  const I64_MAX: u64 := 0x7FFF_FFFF_FFFF_FFFF
  const OBJECT_ALIGN: u64 := 16

  /** On 64-bit words, clearing the four low bits is dividing by 16 and multiplying back; the model
      writes the latter. */
  lemma MaskRoundsDown(x: bv64)
    ensures x & !15 == (x / 16) * 16
  {
  }

  function AlignUp(n: nat): (r: nat)
    ensures r % 16 == 0 && n <= r < n + 16
  {
    (n + 15) / 16 * 16
  }

  /** Where an allocation lands, if it fits. */
  function Place(capacity: nat, bump: nat, size: nat): Option<nat> {
    if AlignUp(bump) + size > capacity then None else Some(AlignUp(bump))
  }

  function Bump(capacity: nat, bump: nat, size: nat): (r: nat)
    ensures bump <= capacity ==> bump <= r <= capacity
  {
    if AlignUp(bump) + size > capacity then bump else AlignUp(bump) + size
  }

  /** The results of a whole sequence of allocations. */
  function Placements(capacity: nat, bump: nat, sizes: seq<nat>): (r: seq<Option<nat>>)
    ensures |r| == |sizes|
    decreases |sizes|
  {
    if sizes == [] then []
    else [Place(capacity, bump, sizes[0])] + Placements(capacity, Bump(capacity, bump, sizes[0]), sizes[1..])
  }

  lemma {:induction false} PlacementInBounds(capacity: nat, bump: nat, sizes: seq<nat>, i: nat)
    requires bump <= capacity && i < |sizes| && Placements(capacity, bump, sizes)[i].Some?
    ensures var offset := Placements(capacity, bump, sizes)[i].value;
            offset % 16 == 0 && bump <= offset && offset + sizes[i] <= capacity
    decreases i
  {
    if i > 0 { PlacementInBounds(capacity, Bump(capacity, bump, sizes[0]), sizes[1..], i - 1); }
  }

  /** Every offset ever returned is aligned and in bounds, and two allocations never overlap: the
      later one starts at or after the end of the earlier one. */
  lemma {:induction false} PlacementsDisjoint(capacity: nat, bump: nat, sizes: seq<nat>, i: nat, j: nat)
    requires bump <= capacity && i < j < |sizes|
    requires Placements(capacity, bump, sizes)[i].Some? && Placements(capacity, bump, sizes)[j].Some?
    ensures var p := Placements(capacity, bump, sizes);
            && p[i].value % 16 == 0 && p[j].value % 16 == 0
            && p[i].value + sizes[i] <= p[j].value
            && p[j].value + sizes[j] <= capacity
    decreases i
  {
    var bump' := Bump(capacity, bump, sizes[0]);
    if i == 0 {
      PlacementInBounds(capacity, bump', sizes[1..], j - 1);
    } else {
      PlacementsDisjoint(capacity, bump', sizes[1..], i - 1, j - 1);
    }
  }

  /** An allocation that does not fit takes nothing from those after it. */
  lemma {:induction false} RefusedTakesNothing(capacity: nat, bump: nat, sizes: seq<nat>, i: nat)
    requires i < |sizes| && Placements(capacity, bump, sizes)[i].None?
    ensures var p := Placements(capacity, bump, sizes);
            p[..i] + p[i + 1..] == Placements(capacity, bump, sizes[..i] + sizes[i + 1..])
    decreases i
  {
    var without := sizes[..i] + sizes[i + 1..];
    if i == 0 {
      assert without == sizes[1..];
    } else {
      var bump' := Bump(capacity, bump, sizes[0]);
      RefusedTakesNothing(capacity, bump', sizes[1..], i - 1);
      assert without[1..] == sizes[1..][..i - 1] + sizes[1..][i..];
      assert without[0] == sizes[0];
    }
  }

  function RoundedSum(sizes: seq<nat>): nat {
    if sizes == [] then 0 else AlignUp(sizes[0]) + RoundedSum(sizes[1..])
  }

  predicate AllPlaced(capacity: nat, bump: nat, sizes: seq<nat>) {
    forall i :: 0 <= i < |sizes| ==> Placements(capacity, bump, sizes)[i].Some?
  }

  /** Each size, placed at `base` after the rounded sizes of those before it, ends within the capacity. */
  predicate AllWithin(capacity: nat, base: nat, sizes: seq<nat>) {
    forall k :: 0 <= k < |sizes| ==> base + RoundedSum(sizes[..k]) + sizes[k] <= capacity
  }

  lemma PlacedSplit(capacity: nat, bump: nat, sizes: seq<nat>)
    requires sizes != []
    ensures AllPlaced(capacity, bump, sizes) <==>
            Place(capacity, bump, sizes[0]).Some? && AllPlaced(capacity, Bump(capacity, bump, sizes[0]), sizes[1..])
  {
    var p, q := Placements(capacity, bump, sizes), Placements(capacity, Bump(capacity, bump, sizes[0]), sizes[1..]);
    if AllPlaced(capacity, bump, sizes) {
      assert p[0].Some?;
      forall i | 0 <= i < |q| ensures q[i].Some? { assert p[i + 1].Some?; }
    } else {
      var i :| 0 <= i < |p| && p[i].None?;
      assert i > 0 ==> q[i - 1].None?;
    }
  }

  lemma WithinSplit(capacity: nat, base: nat, sizes: seq<nat>)
    requires sizes != []
    ensures AllWithin(capacity, base, sizes) <==>
            base + sizes[0] <= capacity && AllWithin(capacity, base + AlignUp(sizes[0]), sizes[1..])
  {
    var rest := sizes[1..];
    assert sizes[..0] == [];
    forall k | 0 < k < |sizes| ensures RoundedSum(sizes[..k]) == AlignUp(sizes[0]) + RoundedSum(rest[..k - 1]) {
      assert sizes[..k][1..] == rest[..k - 1];
    }
    if AllWithin(capacity, base, sizes) {
      assert base + RoundedSum(sizes[..0]) + sizes[0] <= capacity;
      forall k | 0 <= k < |rest| ensures base + AlignUp(sizes[0]) + RoundedSum(rest[..k]) + rest[k] <= capacity {
        assert base + RoundedSum(sizes[..k + 1]) + sizes[k + 1] <= capacity;
      }
    } else {
      var k :| 0 <= k < |sizes| && base + RoundedSum(sizes[..k]) + sizes[k] > capacity;
      if k > 0 { assert base + AlignUp(sizes[0]) + RoundedSum(rest[..k - 1]) + rest[k - 1] > capacity; }
    }
  }

  lemma AlignAgain(n: nat, size: nat)
    ensures AlignUp(AlignUp(n) + size) == AlignUp(n) + AlignUp(size)
  {
  }

  /** A sequence of allocations all succeed exactly when each ends within the capacity, the ones before
      it counted at their rounded sizes. */
  lemma {:induction false} AllFitIff(capacity: nat, bump: nat, sizes: seq<nat>)
    requires bump <= capacity
    ensures AllPlaced(capacity, bump, sizes) <==> AllWithin(capacity, AlignUp(bump), sizes)
    decreases |sizes|
  {
    if sizes == [] {
    } else {
      PlacedSplit(capacity, bump, sizes);
      WithinSplit(capacity, AlignUp(bump), sizes);
      AlignAgain(bump, sizes[0]);
      AllFitIff(capacity, Bump(capacity, bump, sizes[0]), sizes[1..]);
    }
  }

  /** In particular, sizes that fit once rounded up never fail. */
  lemma RoundedSumFits(capacity: nat, sizes: seq<nat>)
    requires RoundedSum(sizes) <= capacity
    ensures AllPlaced(capacity, 0, sizes)
  {
    AllFitIff(capacity, 0, sizes);
    forall k | 0 <= k < |sizes| ensures AlignUp(0) + RoundedSum(sizes[..k]) + sizes[k] <= capacity {
      PrefixFits(sizes, k);
    }
  }

  lemma {:induction false} PrefixFits(sizes: seq<nat>, k: nat)
    requires k < |sizes|
    ensures RoundedSum(sizes[..k]) + AlignUp(sizes[k]) <= RoundedSum(sizes)
  {
    if k > 0 {
      PrefixFits(sizes[1..], k - 1);
      assert sizes[..k][1..] == sizes[1..][..k - 1];
    }
  }

  class Arena {
    const capacity: u64
    var bump: u64

    ghost predicate Valid()
      reads this
    {
      bump <= capacity <= I64_MAX
    }

    /** Only for capacities that fit a signed 64-bit file offset. */
    constructor (capacity: u64)
      requires capacity <= I64_MAX
      ensures Valid() && this.capacity == capacity && bump == 0
    {
      this.capacity := capacity;
      bump := 0;
    }

    /** The sum under the mask is unchecked in 64 bits; validity keeps it from wrapping. */
    method Alloc(size: u64) returns (r: Option<u64>)
      requires Valid()
      modifies this
      ensures Valid()
      ensures bump as int == Bump(capacity as int, old(bump) as int, size as int)
      ensures r.Some? <==> Place(capacity as int, old(bump) as int, size as int).Some?
      ensures r.Some? ==> r.value as int == Place(capacity as int, old(bump) as int, size as int).value
    {
      var aligned := (bump + OBJECT_ALIGN - 1) / 16 * 16;
      assert aligned as int == AlignUp(bump as int);
      if size > U64_MAX - aligned { return None; }
      var end := aligned + size;
      if end > capacity { return None; }
      bump := end;
      return Some(aligned);
    }
  }

  method CreateArena(capacity: u64) returns (r: Option<Arena>)
    ensures r.Some? <==> capacity <= I64_MAX
    ensures r.Some? ==> fresh(r.value) && r.value.Valid() && r.value.capacity == capacity && r.value.bump == 0
  {
    if capacity > I64_MAX { return None; }
    var arena := new Arena(capacity);
    return Some(arena);
  }
}
